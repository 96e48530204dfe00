# Boss respawn tracker store, in Dafny

This project models the core of a boss-respawn tracker's store
(`src/stores/bossStore.ts`). The store keeps four things:

- the boss definitions (`BossConfig`);
- a per-boss kill state (`dbStates`: last kill time, pin flag, colour tag);
- the per-map alarm sounds and the event-mode flag;
- the user's card order.

From these it derives, on every one-second tick, the list of boss cards with
a countdown and a status (`bossListView`). It also starts an alarm sequence
when a boss enters the `critical` window (`checkWarnings`).

The model has these parts:

- `BossTypes` (`boss_types.dfy`): the records, and `new Date(x)` on a time
  value (truncation toward zero, invalid beyond ±8.64e15 ms).
- `Countdown` (`countdown.dfy`): the effective interval, next refresh time,
  remaining seconds and the first-match status thresholds for one boss, and
  the inverse used by `setRemainingSeconds`.
- `StableSort` (`stable_sort.dfy`): a stable sort by an integer key. It
  proves that sortedness plus stability fix the result, so any stable sort
  (`Array.prototype.sort` has been stable since ECMAScript 2019) returns the
  same list.
- `CardOrder` (`card_order.dfy`): the id-to-position map (the last occurrence
  wins) and the partial-order merge.
- `ListView` (`list_view.dfy`): the `bossListView` getter as a pure function,
  and its ordering properties.
- `Warnings` (`warnings.dfy`): the warning scan as a fold over the view.
  Calls to `playWarningSequence` are recorded in an alert log.
- `KillState` (`kill_state.dfy`): the single-field mutations with optimistic
  update and rollback, the state map of `fetchStates`, and the realtime row
  merge, all stated on values.
- `MapSettings` (`map_settings.dfy`): how `fetchMapSounds` classifies the
  settings rows.
- `Store` (`boss_store.dfy`): the class `BossStore`, whose fields are the
  store's state. Its methods update those fields in place, the way the
  actions do. The backend's reply is a parameter of each method (`Upsert`,
  `Fetch`), and so is the clock.

Timestamps are integer milliseconds since the epoch. `None` stands for every
falsy `last_killed_at`. Countdown arithmetic is on exact `real`s, where the
original uses IEEE-754 doubles.

A failed colour change is rolled back silently: `cycleBossColor` leaves
`error` alone (src/stores/bossStore.ts:264-267), and so does
`CycleBossColor`.

## Model

| member | source | states |
|---|---|---|
| BossTypes.TruncMs | src/stores/bossStore.ts:368 | `new Date` on a fractional time value truncates toward zero: the result is within 1 ms of the input, on its zero side |
| BossTypes.TimeClip | src/stores/bossStore.ts:368 | the time value is valid exactly when its magnitude is at most 8.64e15 ms; a valid result stays in that range and is the input truncated toward zero |
| Countdown.Ceil | src/stores/bossStore.ts:66 | `Math.ceil`: the least integer not below the input |
| Countdown.Classify | src/stores/bossStore.ts:68-84 | the thresholds tested in order: `missed` exactly when the raw count is ≤ −600; `missed` and `ready` report 0; `critical` exactly for 1..60; `soon` for 61..1800; `wait` above 1800; the reported count is never negative |
| Countdown.EffectiveInterval | src/stores/bossStore.ts:55-56 | outside event mode the interval less the 20 s margin; in event mode two thirds of the interval less the margin, so never longer for a non-negative interval |
| Countdown.NextRefresh | src/stores/bossStore.ts:63-64 | the refresh time lies after the kill exactly when the effective interval is positive |
| Countdown.RawRemaining | src/stores/bossStore.ts:65-66 | the count is the time left rounded up to whole seconds: `(s − 1) × 1000 < next − now ≤ s × 1000`; it is 0 or less exactly when the refresh time has come |
| Countdown.DeriveView | src/stores/bossStore.ts:49-95 | the view passes the config through; it takes kill time, pin flag and colour from the state, or null, false and 0 when there is none; the effective interval is `interval × (2/3 or 1) − 20`; the remaining seconds are never negative. In terms of the view's own count: `critical` exactly for 1..60, `soon` for 61..1800, `wait` above 1800, and `ready` or `missed` exactly when the count is 0 |
| Countdown.NoKillIsReady | src/stores/bossStore.ts:81-84 | with no kill recorded the boss is `ready`, with 0 seconds and no refresh time, for any interval and event mode |
| Countdown.KilledCountdown | src/stores/bossStore.ts:55-80 | with a kill recorded, the refresh time is `kill + effectiveInterval × 1000`. A positive count is the number of seconds left, rounded up. The count is 0 exactly when the refresh time has passed, and the boss is `missed` exactly when it passed 600 s ago or more |
| Countdown.UrgencyMonotone | src/stores/bossStore.ts:62-84 | a later clock never gives a less urgent status (wait < soon < critical < ready < missed) |
| Countdown.NonPositiveIntervalIsDue | src/stores/bossStore.ts:55-73 | when the effective interval is zero or negative, the refresh time is at or before the kill, and from the kill on the boss is `ready` or `missed` with 0 seconds |
| Countdown.ScenarioExamples | src/stores/bossStore.ts:55-80 | 3600 s gives 3580 s, or 2380 s in event mode; 30 s before due is `critical` with 30 s; 700 s past due is `missed` with 0 |
| Countdown.KillTimeFor | src/stores/bossStore.ts:425-429 | the computed kill time plus the effective interval in milliseconds lands exactly on `clock + seconds × 1000` |
| Countdown.RemainingSecondsRoundTrip | src/stores/bossStore.ts:420-432 | recording the kill time computed for `s` seconds and deriving at the same clock gives back `s`, classified (so 0 gives `ready`). The refresh time lies within 1 ms of `clock + s × 1000` |
| StableSort.Sort | src/stores/bossStore.ts:96-100 | the sorted list is a permutation of the input, sorted non-decreasingly by the key |
| StableSort.InsertSorted | src/stores/bossStore.ts:96-100 | inserting into a sorted list keeps it sorted |
| StableSort.SortIsStable | src/stores/bossStore.ts:96-100 | elements with equal keys keep their input order |
| StableSort.SortedUnique | src/stores/bossStore.ts:96-100 | two lists sorted by a key and stable with respect to each other are equal, so the stable sort's result is unique |
| StableSort.SortedKeysOrder | src/stores/bossStore.ts:96-100 | in a sorted list an element with a smaller key comes first |
| CardOrder.OrderMap | src/stores/bossStore.ts:47 | the position map holds exactly the listed ids, each at a valid index holding that id, and no later index holds it (the last occurrence wins) |
| CardOrder.Rank | src/stores/bossStore.ts:97-98 | the sort key of a listed id is its position in the map; an unlisted id gets 99999 |
| CardOrder.Without | src/stores/bossStore.ts:169-170 | the filtered order holds exactly the old ids not in the subset, and is no longer than the old order |
| CardOrder.PartialOrderMerge | src/stores/bossStore.ts:169-194 | the new order has between `|subset|` and `|order| + |subset|` ids; an empty subset leaves the order unchanged; a subset that covers every old id becomes the whole order |
| CardOrder.WithoutMembers | src/stores/bossStore.ts:169-170 | the filtered order holds exactly the old ids that are not in the subset |
| CardOrder.WithoutCounts | src/stores/bossStore.ts:169-170 | the filter keeps every occurrence: an id not in the subset appears exactly as often as in the old order, a subset id never |
| CardOrder.WithoutIsSubsequence | src/stores/bossStore.ts:169-170 | the filter keeps the remaining ids in their old relative order |
| CardOrder.MergeContents | src/stores/bossStore.ts:169-194 | the new order ends with the subset in its new order. Before it come exactly the old ids not in the subset, each as often as in the old order and in their old relative order. Every old id and every subset id is kept |
| CardOrder.MergeIdempotent | src/stores/bossStore.ts:169-194 | applying the same reordered subset a second time changes nothing |
| CardOrder.MergeRanks | src/stores/bossStore.ts:169-194 | after the merge (subset ids distinct) the subset's positions follow the subset's order and come after every other old id's position |
| CardOrder.MergeExample | src/stores/bossStore.ts:164-167 | [A,B,C,D,E] with the subset [D,B] gives [A,C,E,D,B], not the [A,D,C,B,E] the comment suggests |
| ListView.Derived | src/stores/bossStore.ts:49-95 | one view per config, in config order, each derived from that config's state |
| ListView.VisibleViews | src/stores/bossStore.ts:96 | the filter keeps exactly the visible views and never adds one |
| ListView.BossListView | src/stores/bossStore.ts:43-101 | one view per visible config, in non-decreasing card-order position; every view belongs to a visible config and is derived from that config's kill state |
| ListView.VisibleDerivedCommute | src/stores/bossStore.ts:96 | dropping hidden views equals deriving only the visible configs |
| ListView.ListViewContents | src/stores/bossStore.ts:43-101 | the view is a permutation of the visible configs' views, one per visible config. It is sorted by card-order position, and equal positions keep config order. Every view is derived from its own config and state |
| ListView.ListViewIsStableSort | src/stores/bossStore.ts:96-100 | any list sorted by card-order position that keeps config order among equal positions is the view |
| ListView.ListedBeforeUnlisted | src/stores/bossStore.ts:97-99 | with fewer than 99999 positions, every boss in the card order comes before every boss missing from it |
| ListView.ReorderedSubsetView | src/stores/bossStore.ts:185-194 | after a partial reorder, the view shows the subset's bosses in the subset's new order, after every boss listed only in the old order |
| ListView.SortedByMergedOrder | src/stores/bossStore.ts:185-194 | the same holds for any list sorted by the merged order's positions |
| ListView.ListViewDistinct | src/stores/bossStore.ts:43-101 | configs with distinct ids give a view with distinct ids |
| ListView.PermutationKeepsDistinct | src/stores/bossStore.ts:96-100 | sorting cannot duplicate an id: a permutation of a list with distinct ids has distinct ids |
| Warnings.SoundFor | src/stores/bossStore.ts:204 | a missing or empty sound entry means `none`; any other value is the map's sound |
| Warnings.WarnStep | src/stores/bossStore.ts:201-211 | after one view's step, its id is armed exactly when the view is critical |
| Warnings.WarnStepAlerts | src/stores/bossStore.ts:201-211 | one step leaves every other id as it was, and starts the map's sound exactly when the view is critical, was not armed and the map has an alarm; this is the reference list for that one view |
| Warnings.CheckFold | src/stores/bossStore.ts:197-213 | the scan over the views starts at most one sequence per view, and never the `none` sound |
| Warnings.CheckWarned | src/stores/bossStore.ts:197-213 | after a scan over views with distinct ids, the warned set is the old set minus every viewed id, plus the critical ones |
| Warnings.CheckWarnedPerId | src/stores/bossStore.ts:197-213 | after a scan, a viewed id is warned exactly when its view is critical; an id outside the view keeps its membership |
| Warnings.CheckFired | src/stores/bossStore.ts:200-208 | the sequences started are, in view order, the sounds of the views that are critical, were not warned and whose map has an alarm |
| Warnings.ListViewScan | src/stores/bossStore.ts:197-213 | for the store's view (config ids distinct), the warned set and the started sequences are as above; hidden bosses are untouched |
| Warnings.FiresOncePerEntry | src/stores/bossStore.ts:200-211 | over successive ticks of one boss, a sequence starts exactly once per entry into `critical`, never while it stays critical |
| Warnings.FiresOncePerEntryExample | src/stores/bossStore.ts:200-211 | wait, critical, ready, critical starts two sequences; wait, critical, critical starts one |
| KillState.JsRem | src/stores/bossStore.ts:253 | JavaScript `%`: for a non-negative dividend it is the Euclidean remainder, in 0..5; for a negative one it lies in −5..0 |
| KillState.AfterTogglePin | src/stores/bossStore.ts:393-418 | the boss gets an entry, and every other boss is unchanged. Only `is_pinned` changes: it is negated when saved and restored on failure |
| KillState.AfterKillTime | src/stores/bossStore.ts:367-391 | the boss gets an entry, and every other boss is unchanged. Only `last_killed_at` changes: it is set when saved and restored on failure |
| KillState.AfterCycleColor | src/stores/bossStore.ts:248-267 | the boss gets an entry, and every other boss is unchanged. Only `color_index` changes: it becomes `(c + 1) % 6` when saved and is restored on failure |
| KillState.FailureOnlyCreatesEntry | src/stores/bossStore.ts:248-267 | a failed upsert leaves only the created default entry behind, for each of the three mutations |
| KillState.TogglePinTwice | src/stores/bossStore.ts:397-399 | two saved toggles give back the original pin flag |
| KillState.NextColor | src/stores/bossStore.ts:252-253 | a tag in 0..4 advances by one, 5 wraps to 0, every non-negative tag gives one in 0..5, and a tag below −1 gives one in −5..0 as JavaScript's `%` does |
| KillState.NextColorCycles | src/stores/bossStore.ts:252-253 | a colour in 0..5 moves to the next one, 5 wraps to 0, and six cycles return to the start |
| KillState.MutationsKeepKeyed | src/stores/bossStore.ts:249-250 | every mutation keeps each entry keyed by its own boss id |
| KillState.MutationsKeepColors | src/stores/bossStore.ts:252-254 | every mutation keeps colour tags within 0..5 |
| KillState.StateMap | src/stores/bossStore.ts:321-325 | the state map holds exactly the fetched ids, each keyed by its own id, and for a repeated id the last row wins |
| KillState.AfterChange | src/stores/bossStore.ts:126-131 | a realtime row adds or updates only its own boss's entry |
| KillState.FullRowReplaces | src/stores/bossStore.ts:128-131 | a row carrying every column replaces the entry outright |
| KillState.ChangeKeepsUncarried | src/stores/bossStore.ts:128-131 | a carried column takes the row's value and any other keeps the old one; delivering a row twice equals delivering it once |
| MapSettings.SoundMap | src/stores/bossStore.ts:275-285 | the sound map holds exactly the map ids of rows that are not reserved keys, and for a repeated map id the last row wins |
| MapSettings.EventModeAfter | src/stores/bossStore.ts:276-278 | the last EVENT_MODE row decides the flag (exactly the string "true"); with no such row the flag is unchanged |
| Store.FindConfig | src/stores/bossStore.ts:421 | the first config with the id, or none exactly when no config has it |
| Store.BuildStateMap | src/stores/bossStore.ts:321-325 | the loop builds the state map of the rows |
| Store.ScanSettings | src/stores/bossStore.ts:275-284 | the loop builds the sound map and the final event-mode flag of the rows |
| Store.BossStore.constructor | src/stores/bossStore.ts:27-40 | the initial state: no configs, no states, no error, no sounds, event mode off, nothing warned; the card order is the stored one, or empty |
| Store.BossStore.SetCardOrder | src/stores/bossStore.ts:150-153 | the card order and its stored copy become the new order; nothing else changes |
| Store.BossStore.UpdatePartialOrder | src/stores/bossStore.ts:169-194 | the card order and its stored copy become the merge of the old order with the subset; nothing else changes |
| Store.BossStore.CheckWarnings | src/stores/bossStore.ts:197-213 | the warned set and the alert log become the result of the scan over the current view; nothing else changes |
| Store.BossStore.ScanViews | src/stores/bossStore.ts:200-212 | the loop over the views performs the scan of the whole list |
| Store.BossStore.ScanOne | src/stores/bossStore.ts:200-211 | the callback for one view performs one scan step |
| Store.BossStore.Tick | src/stores/bossStore.ts:110-113 | the clock is stored, then the scan runs over the view at that clock |
| Store.BossStore.CycleBossColor | src/stores/bossStore.ts:248-267 | the states become `AfterCycleColor`; `error` is left alone |
| Store.BossStore.TogglePin | src/stores/bossStore.ts:393-418 | the states become `AfterTogglePin`; a failure sets `error` to its message |
| Store.BossStore.UpdateKillTime | src/stores/bossStore.ts:367-391 | an out-of-range time is rejected with no change. Otherwise the states become `AfterKillTime` and a failure sets `error` |
| Store.BossStore.SetRemainingSeconds | src/stores/bossStore.ts:420-432 | an unknown id changes nothing. Otherwise the method is `updateKillTime` with `clock + s × 1000 − effectiveInterval × 1000`. On success the boss's countdown derived at that clock is `s`, classified |
| Store.BossStore.ApplyStateChange | src/stores/bossStore.ts:125-133 | a row with a `boss_id` is merged into its entry; a payload without a row or without an id is ignored |
| Store.BossStore.FetchStates | src/stores/bossStore.ts:310-333 | `error` is cleared. Fetched rows replace the states with their state map; a failure sets `error` and keeps the states |
| Store.BossStore.FetchMapSounds | src/stores/bossStore.ts:270-292 | fetched rows set the sound map and the event-mode flag; a failure or no data changes nothing |

## Left out

- `src/utils/audio.ts` (Web Audio synthesis and the timed 10-fold replay of
  `playWarningSequence`) is not part of this model. A started sequence is
  one entry in the alert log `alerts`.
- Backend traffic: selects and upserts are replaced by their settled reply,
  passed in as a parameter. The payload each upsert sends is not modelled.
  The subscription set-up in `init` and the configs channel that re-lists
  configs are not modelled either.
- `fetchConfigs`, `addBoss`, `updateBoss` and `deleteBoss` are not
  modelled. Each forwards a write to the backend or replaces the config list
  with what the backend returns.
- `setMapSound` and `setEventMode` are not modelled. Each writes its argument
  into its field first (`mapSounds[mapId]`, `isEventMode`), then upserts the
  setting. Neither rolls back on failure. Both set `error`, except that
  `setMapSound` stays silent when the message says the settings table does
  not exist. The `playSound` preview is audio.
- `BossConfig.interval` is an integer number of seconds here; the original
  field is a JavaScript number and may be fractional. `DeriveView`,
  `BossListView` and everything built on them hold for whole-second
  intervals only.
- Interleaving at `await` is not modelled: each action runs from its
  optimistic write to its rollback with no other action in between.
- The timer itself (`setInterval`) is left out; `Tick` is one of its
  callbacks, with the clock reading passed in.
- Local storage: `storedOrder` is a ghost copy of the last order written. A
  stored value that fails to parse as JSON is not modelled.
- ISO 8601 text: kill times are integer milliseconds, so
  `toISOString` and parsing the stored text back are not modelled.
- IEEE-754 rounding of `interval × 2/3` and of the millisecond arithmetic:
  the model is exact where the original rounds.
- The `loading` flag, console logging and the prefixed user messages of the
  operations left out. `error` holds the backend's message as given.
- Store.BossStore.SetRemainingSeconds: `seconds` is an integer and
  `interval` an integer number of seconds. The original accepts any number.
- Countdown.RemainingSecondsRoundTrip: stated only for a computed kill time
  at or after the epoch. `new Date` truncates toward zero, so a fractional
  kill time before 1970 is rounded up, and the countdown can show one second
  more.
- Store.BossStore.ApplyStateChange: a row may carry only some of the four
  columns. Columns beyond those four are not modelled. A column missing
  from a new entry is undefined in the original; it is the default
  entry's falsy value here, which every reader treats the same way.
- Store.BossStore.FetchMapSounds: the original sets `isEventMode` row by row
  inside the loop. The model computes the flag in the loop and stores it
  once after. No other code runs in between, so the end state is the same.
