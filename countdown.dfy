/** The per-boss countdown: effective interval, next refresh time, remaining
    seconds and the status thresholds. Arithmetic is exact (`real`), where the
    original computes in IEEE-754 doubles. */
module Countdown {
  import opened BossTypes

  /** Seconds subtracted from every interval as a safety margin. */
  const MarginSeconds: int := 20
  /** Thresholds on the remaining seconds, tested in this order. */
  const MissedAt: int := -600
  const ReadyAt: int := 0
  const CriticalAt: int := 60
  const SoonAt: int := 1800

  function Multiplier(eventMode: bool): real {
    if eventMode then 2.0 / 3.0 else 1.0
  }

  /** `interval * multiplier - 20`, unclamped: it may be zero or negative.
      Event mode takes two thirds of the interval before the margin, so it
      never lengthens a non-negative interval. */
  function EffectiveInterval(interval: int, eventMode: bool): (e: real)
    ensures !eventMode ==> e == (interval - MarginSeconds) as real
    ensures eventMode ==> 3.0 * (e + MarginSeconds as real) == 2.0 * interval as real
    ensures 0 <= interval ==> e <= (interval - MarginSeconds) as real
  {
    interval as real * Multiplier(eventMode) - MarginSeconds as real
  }

  /** `Math.ceil` on an exact real. */
  function Ceil(x: real): (r: int)
    ensures r as real - 1.0 < x <= r as real
  {
    -((-x).Floor)
  }

  datatype Classified = Classified(status: Status, remaining: int)

  /** First-match classification of the unclamped remaining seconds; `missed`
      and `ready` report zero. */
  function Classify(raw: int): (c: Classified)
    ensures c.remaining >= 0
    ensures c.remaining == (if raw > 0 then raw else 0)
    ensures c.status == Critical <==> 1 <= c.remaining <= CriticalAt
    ensures c.status == Soon <==> CriticalAt < c.remaining <= SoonAt
    ensures c.status == Wait <==> SoonAt < c.remaining
    ensures (c.status == Ready || c.status == Missed) <==> c.remaining == 0
    ensures c.status == Missed <==> raw <= MissedAt
  {
    if raw <= MissedAt then Classified(Missed, 0)
    else if raw <= ReadyAt then Classified(Ready, 0)
    else if raw <= CriticalAt then Classified(Critical, raw)
    else if raw <= SoonAt then Classified(Soon, raw)
    else Classified(Wait, raw)
  }

  /** `killedAtMs + effectiveInterval * 1000` */
  function NextRefresh(killedAt: int, eff: real): (t: real)
    ensures t <= killedAt as real <==> eff <= 0.0
  {
    killedAt as real + eff * 1000.0
  }

  /** `Math.ceil((nextRefreshTime - now) / 1000)`, before clamping. */
  function RawRemaining(next: real, now: int): (s: int)
    ensures (s - 1) as real * 1000.0 < next - now as real <= s as real * 1000.0
    ensures s <= 0 <==> next <= now as real
  {
    Ceil((next - now as real) / 1000.0)
  }

  /** The body of the `bossListView` map callback for one config and its
      (possibly missing) kill state. */
  function DeriveView(c: BossConfig, st: Option<BossState>, eventMode: bool, now: int): (v: BossView)
    ensures v.config == c
    ensures v.remainingSeconds >= 0
    ensures v.effectiveInterval == EffectiveInterval(c.interval, eventMode)
    ensures v.lastKilledAt == (if st.Some? then st.value.lastKilledAt else None)
    ensures v.isPinned == (st.Some? && st.value.isPinned)
    ensures v.colorIndex == (if st.Some? then st.value.colorIndex else 0)
    ensures v.status == Critical <==> 1 <= v.remainingSeconds <= CriticalAt
    ensures v.status == Soon <==> CriticalAt < v.remainingSeconds <= SoonAt
    ensures v.status == Wait <==> SoonAt < v.remainingSeconds
    ensures (v.status == Ready || v.status == Missed) <==> v.remainingSeconds == 0
  {
    var killed := if st.Some? then st.value.lastKilledAt else None;
    var pinned := st.Some? && st.value.isPinned;
    var color := if st.Some? then st.value.colorIndex else 0;
    var eff := EffectiveInterval(c.interval, eventMode);
    match killed
    case None => BossView(c, None, pinned, color, None, 0, eff, Ready)
    case Some(k) =>
      var next := NextRefresh(k, eff);
      var cl := Classify(RawRemaining(next, now));
      BossView(c, killed, pinned, color, Some(next), cl.remaining, eff, cl.status)
  }

  /** How urgent a status is; it never decreases as time passes. */
  function Urgency(s: Status): (u: nat)
    ensures u <= 4
  {
    match s
    case Wait => 0
    case Soon => 1
    case Critical => 2
    case Ready => 3
    case Missed => 4
  }

  lemma NoKillIsReady(c: BossConfig, st: Option<BossState>, eventMode: bool, now: int)
    requires st.None? || st.value.lastKilledAt.None?
    ensures var v := DeriveView(c, st, eventMode, now);
      v.status == Ready && v.remainingSeconds == 0 && v.nextRefreshTime.None?
  {
  }

  /** With a kill recorded, the view's countdown is the next refresh time
      rounded up to whole seconds and classified; a positive count is the
      number of seconds left, rounded up. */
  lemma KilledCountdown(c: BossConfig, st: BossState, eventMode: bool, now: int)
    requires st.lastKilledAt.Some?
    ensures var v := DeriveView(c, Some(st), eventMode, now);
      var next := st.lastKilledAt.value as real + EffectiveInterval(c.interval, eventMode) * 1000.0;
      && v.nextRefreshTime == Some(next)
      && (v.remainingSeconds > 0 ==>
            (v.remainingSeconds - 1) as real * 1000.0 < next - now as real <= v.remainingSeconds as real * 1000.0)
      && (v.remainingSeconds == 0 <==> next - now as real <= 0.0)
      && (v.status == Missed <==> next - now as real <= (MissedAt * 1000) as real)
  {
    var next := NextRefresh(st.lastKilledAt.value, EffectiveInterval(c.interval, eventMode));
    var raw := RawRemaining(next, now);
    assert (raw - 1) as real < (next - now as real) / 1000.0 <= raw as real;
  }

  /** Status urgency is monotone in time: a later `now` never gives a less
      urgent status. */
  lemma UrgencyMonotone(c: BossConfig, st: Option<BossState>, eventMode: bool, now1: int, now2: int)
    requires now1 <= now2
    ensures Urgency(DeriveView(c, st, eventMode, now1).status) <= Urgency(DeriveView(c, st, eventMode, now2).status)
  {
    if st.Some? && st.value.lastKilledAt.Some? {
      var next := NextRefresh(st.value.lastKilledAt.value, EffectiveInterval(c.interval, eventMode));
      var x1, x2 := (next - now1 as real) / 1000.0, (next - now2 as real) / 1000.0;
      assert x2 <= x1;
      CeilMonotone(x2, x1);
    }
  }

  /** An effective interval of zero or less makes the boss due as soon as the
      kill is recorded: from then on it is `ready` or `missed`. */
  lemma NonPositiveIntervalIsDue(c: BossConfig, st: BossState, eventMode: bool, now: int)
    requires EffectiveInterval(c.interval, eventMode) <= 0.0
    requires st.lastKilledAt.Some? && st.lastKilledAt.value <= now
    ensures var v := DeriveView(c, Some(st), eventMode, now);
      && v.nextRefreshTime.Some? && v.nextRefreshTime.value <= st.lastKilledAt.value as real
      && (v.status == Ready || v.status == Missed) && v.remainingSeconds == 0
  {
    var next := NextRefresh(st.lastKilledAt.value, EffectiveInterval(c.interval, eventMode));
    assert (next - now as real) / 1000.0 <= 0.0;
    CeilMonotone((next - now as real) / 1000.0, 0.0);
  }

  lemma CeilMonotone(x: real, y: real)
    requires x <= y
    ensures Ceil(x) <= Ceil(y)
  {
  }

  /** The worked examples: 3600 s gives 3580 s, or 2380 s in event mode; 30 s
      before due is `critical`; 700 s past due is `missed` with 0 reported. */
  lemma ScenarioExamples(c: BossConfig, now: int)
    requires c.interval == 3600
    ensures EffectiveInterval(3600, false) == 3580.0
    ensures EffectiveInterval(3600, true) == 2380.0
    ensures var st := BossState(c.id, Some(now - 3580 * 1000 + 30000), false, 0);
      var v := DeriveView(c, Some(st), false, now);
      v.remainingSeconds == 30 && v.status == Critical
    ensures var st := BossState(c.id, Some(now - 3580 * 1000 - 700000), false, 0);
      var v := DeriveView(c, Some(st), false, now);
      v.remainingSeconds == 0 && v.status == Missed
  {
    var k1 := now - 3580 * 1000 + 30000;
    assert NextRefresh(k1, 3580.0) - now as real == 30000.0;
    assert Ceil(30000.0 / 1000.0) == 30;
    var k2 := now - 3580 * 1000 - 700000;
    assert NextRefresh(k2, 3580.0) - now as real == -700000.0;
    assert Ceil(-700000.0 / 1000.0) == -700;
  }

  /** `setRemainingSeconds`: the kill time (before `new Date` truncation) that
      makes `seconds` remain at time `clock`. */
  function KillTimeFor(interval: int, eventMode: bool, clock: int, seconds: int): (k: real)
    ensures k + EffectiveInterval(interval, eventMode) * 1000.0 == (clock + seconds * 1000) as real
  {
    clock as real + seconds as real * 1000.0 - EffectiveInterval(interval, eventMode) * 1000.0
  }

  /** Inverse of the countdown: recording the kill time computed for `seconds`
      and deriving at the same clock and event mode gives back `seconds`,
      classified; the next refresh time is within one millisecond of
      `clock + seconds * 1000` (exactly that when the effective interval is a
      whole number of milliseconds). */
  lemma RemainingSecondsRoundTrip(c: BossConfig, st: BossState, eventMode: bool, clock: int, seconds: int)
    requires 0.0 <= KillTimeFor(c.interval, eventMode, clock, seconds)
    requires st.lastKilledAt == TimeClip(KillTimeFor(c.interval, eventMode, clock, seconds))
    requires st.lastKilledAt.Some?
    ensures var v := DeriveView(c, Some(st), eventMode, clock);
      && v.status == Classify(seconds).status
      && v.remainingSeconds == Classify(seconds).remaining
      && v.nextRefreshTime.Some?
      && (clock + seconds * 1000) as real - 1.0 < v.nextRefreshTime.value <= (clock + seconds * 1000) as real
    ensures seconds == 0 ==> DeriveView(c, Some(st), eventMode, clock).status == Ready
    ensures 0 < seconds ==> DeriveView(c, Some(st), eventMode, clock).remainingSeconds == seconds
  {
    var eff := EffectiveInterval(c.interval, eventMode);
    var x := KillTimeFor(c.interval, eventMode, clock, seconds);
    var k := st.lastKilledAt.value;
    assert k == TruncMs(x);
    assert x - 1.0 < k as real <= x;
    var next := NextRefresh(k, eff);
    assert next - clock as real == k as real - x + seconds as real * 1000.0;
    var y := (next - clock as real) / 1000.0;
    assert seconds as real - 1.0 < y <= seconds as real;
    assert RawRemaining(next, clock) == seconds;
  }
}
