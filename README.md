# Drone swarm dashboard engine, in Dafny

This project models the simulation engine inside the drone swarm dashboard
component (`app/components/DroneSwarmDashboard.jsx`). It proves properties of
that model.

The engine keeps the following state:

- a fixed roster of three drones, each with an id, a position, a battery
  percentage, a status string and an altitude history;
- the mission status, the elapsed time in ticks, a list of low-battery alerts
  and a pause flag.

Once a second, while not paused, the interval callback does three things:

- it maps every drone through one step, in roster order: move the drone by a
  random amount, drain its battery by 0.1 (never below 0), append an altitude
  sample to a history cut to its last 20 entries, and call `addAlert` when the
  new battery is below 20;
- it replaces the roster;
- it increments the elapsed time.

`addAlert` keeps the last 4 alerts and appends the new one. The pause button
flips the pause flag. The stop button marks the mission complete and pauses
it. Around this state sit values the page derives on every render: the
colours of status strings and battery bars, the mission clock, the mission
progress, and the fleet's mean altitude and mean battery.

The project is split into four modules:

- `buffers.dfy` (`Buffers`): the bounded append used for both the history and
  the alerts (`[...xs.slice(-k), x]`), and the theorem that a run of such
  appends keeps exactly the `k + 1` most recent entries.
- `telemetry.dfy` (`Telemetry`): drones, draws of `Math.random`, alerts, and
  what one tick does to one drone and to the roster, as pure functions. It
  also covers several ticks of one drone (`Fly`), with the battery and history
  theorems.
- `metrics.dfy` (`Metrics`): `getStatusColor`, the battery band, the mission
  clock, the mission progress and the averages.
- `engine.dfy` (`Engine`): the mutable engine as the class `Swarm`. Its fields
  are the component's state variables. `Tick`, `TogglePause`, `Stop` and
  `AddAlert` change them. `StepDrones` is the updater handed to `setDrones`: a
  loop over the previous roster that calls the per-drone callback `StepOne`,
  which may call `AddAlert`. The class invariant `Valid` holds the following:
  - three drones with distinct ids;
  - batteries in [0, 100];
  - at most 21 history samples per drone;
  - at most 5 alerts, each reporting a battery in [0, 20).

  Three scenario methods drive a `Swarm` through a first tick, five ticks
  while paused, and a stop followed by a resume.

The model follows the code as written. Three behaviours of the code are easy
to misread:

- **History length.** The history is cut with `slice(-20)` and then
  extended, so a drone keeps up to 21 samples. After 25 ticks from
  time 0 it holds the samples for times 4 to 24 (`TwentyFiveTicks`).
- **Sample time.** A sample is stamped with the elapsed time read before the
  increment, so the first tick's samples carry time 0 (`FirstTick`).
- **Stop is not final.** Stop only sets the status to complete and pauses.
  The tick never reads the mission status, so pressing play after stop makes
  ticks run again while the status stays complete (`StopThenResume`).

Only `Swarm.Stop` writes the mission status, and only to complete: no other
method names `missionStatus` in its `modifies` clause, so the status moves
only from active to complete. `TogglePause` and `Stop` keep the class
invariant (`old(Valid()) ==> Valid()`), since they touch none of the fields it
reads.

Inputs the engine cannot see become parameters:

- Each drone's three `Math.random()` values for one tick are a `Draw`, each
  value in [0, 1).
- Batteries and coordinates are exact `real`s.

## Model

| member | source | states |
|---|---|---|
| Buffers.KeepLast | app/components/DroneSwarmDashboard.jsx:39 | `slice(-n)` keeps `min(n, length of s)` entries, and they are the last entries of `s` in their order |
| Buffers.Push | app/components/DroneSwarmDashboard.jsx:50 | a bounded append has `min(keep, length of s) + 1` entries (at most `keep + 1`), ends with the new entry, and the rest are the old trailing entries in order |
| Buffers.PushAll | app/components/DroneSwarmDashboard.jsx:31-33 | several bounded appends in a row: no appends leave the buffer unchanged, the last appended entry is last, the `keep + 1` bound is kept, and nothing appears that was not there or appended |
| Buffers.PushIsWindow | app/components/DroneSwarmDashboard.jsx:50 | one bounded append equals keeping the last `keep + 1` entries of the buffer extended by the new entry |
| Buffers.PushAllIsWindow | app/components/DroneSwarmDashboard.jsx:50 | after any non-empty run of bounded appends, the buffer is exactly the last `keep + 1` entries of everything appended, oldest first (the alert list is the 5 most recent alerts) |
| Telemetry.Move | app/components/DroneSwarmDashboard.jsx:24-28 | for draws in [0, 1) the x and y moves lie in [-1, 1) and the z move in [-0.5, 0.5); draws of 0.5 leave the position unchanged |
| Telemetry.DrainBattery | app/components/DroneSwarmDashboard.jsx:29 | `max(b - 0.1, 0)`: never negative, zero exactly when `b <= 0.1`, otherwise `b - 0.1`, never above a non-negative `b`, strictly below a positive `b` |
| Telemetry.StepDrone | app/components/DroneSwarmDashboard.jsx:35-40 | one drone's step keeps id and status, moves the position by `Move` with its own draw, drains the battery, and leaves a history of the last `min(20, old length)` old samples in order plus one sample `(t, new z)` last; the z move stays within [-0.5, 0.5) |
| Telemetry.StepAll | app/components/DroneSwarmDashboard.jsx:23 | mapping a tick over the roster keeps its length |
| Telemetry.StepAllIndex | app/components/DroneSwarmDashboard.jsx:23-41 | for one index `i`, drone `i` after the map is drone `i` before it, stepped with its own draw |
| Telemetry.StepAllAt | app/components/DroneSwarmDashboard.jsx:23-41 | drone `i` after the map is drone `i` before it, stepped with its own draw, for every `i` at once |
| Telemetry.StepAllKeepsRoster | app/components/DroneSwarmDashboard.jsx:35-40 | a tick keeps the number of drones, their order, their ids and their statuses |
| Telemetry.RaisedAlerts | app/components/DroneSwarmDashboard.jsx:31-33 | one tick raises at most as many alerts as there are drones; an alert for a drone is raised if and only if its new battery is strictly below 20; every raised alert reports a battery below 20 (the exact list is fixed by `RaisedAlertsSnoc`) |
| Telemetry.RaisedAlertsSnoc | app/components/DroneSwarmDashboard.jsx:31-33 | one more drone adds exactly one alert for itself, at the end, when its new battery is below 20, and none otherwise |
| Telemetry.AlertFor | app/components/DroneSwarmDashboard.jsx:32 | the alert passed to `addAlert` names the drone and carries its new battery, the two values the warning message is built from |
| Telemetry.RaisedAlertsFromRoster | app/components/DroneSwarmDashboard.jsx:31-33 | every raised alert names a drone of the roster and reports that drone's battery |
| Telemetry.CrossingTheThreshold | app/components/DroneSwarmDashboard.jsx:29-33 | a drone at 20.05 drops to 19.95 and raises exactly one alert, naming it and reporting 19.95 |
| Telemetry.RaisedAlertsInRosterOrder | app/components/DroneSwarmDashboard.jsx:23-33 | the alerts of a roster are those of its first part followed by those of its second part, so alerts come in roster order |
| Telemetry.Fly | app/components/DroneSwarmDashboard.jsx:21-43 | consecutive ticks of one drone, the k-th reading elapsed time `t + k`, never change its id or status |
| Telemetry.FlyBattery | app/components/DroneSwarmDashboard.jsx:29 | after n ticks a non-negative battery is exactly `max(b - 0.1 n, 0)`: never rising, never negative |
| Telemetry.EmptyBatteryStaysEmpty | app/components/DroneSwarmDashboard.jsx:29 | a battery at 0 stays 0 on every later tick |
| Telemetry.FlyHistory | app/components/DroneSwarmDashboard.jsx:39 | from an empty history, n ticks leave `min(n, 21)` samples stamped with consecutive times ending at `t + n - 1`, oldest first |
| Telemetry.TwentyFiveTicks | app/components/DroneSwarmDashboard.jsx:39 | 25 ticks from time 0 leave 21 samples, for times 4 to 24 |
| Metrics.StatusColor | app/components/DroneSwarmDashboard.jsx:53-60 | green exactly for "active", yellow exactly for "warning", red exactly for "error", blue for every other string |
| Metrics.StatusColorOfLabels | app/components/DroneSwarmDashboard.jsx:112 | a complete mission and an initializing drone are shown blue, an active mission green; among drone statuses only "initializing" falls to the default |
| Metrics.BatteryBand | app/components/DroneSwarmDashboard.jsx:158-160 | blue exactly above 50, yellow exactly in (20, 50], red exactly at or below 20 |
| Metrics.AlertedDroneIsRed | app/components/DroneSwarmDashboard.jsx:159-160 | a drone that raises an alert has a red bar; at exactly 20 the bar is red but no alert is raised |
| Metrics.MissionTime | app/components/DroneSwarmDashboard.jsx:110 | minutes times 60 plus seconds is the elapsed time, with seconds below 60 |
| Metrics.MissionProgress | app/components/DroneSwarmDashboard.jsx:215 | progress lies in [0, 100], is 100 exactly from tick 300 on, and is `elapsed / 3` below that |
| Metrics.MissionProgressMonotone | app/components/DroneSwarmDashboard.jsx:215 | progress never decreases as time goes on |
| Metrics.SumWithin | app/components/DroneSwarmDashboard.jsx:196 | the left-to-right `reduce` sum of n values each within [lo, hi] lies within [n lo, n hi] |
| Metrics.SumMonotone | app/components/DroneSwarmDashboard.jsx:209 | the `reduce` sum is monotone: raising no value never raises the sum |
| Metrics.Mean | app/components/DroneSwarmDashboard.jsx:196 | the mean times the number of values is the `reduce` sum |
| Metrics.AverageAltitude | app/components/DroneSwarmDashboard.jsx:196 | the mean altitude times the roster size is the sum of the drones' altitudes; its bounds are `AverageAltitudeWithin` |
| Metrics.AverageBattery | app/components/DroneSwarmDashboard.jsx:209 | the mean battery times the roster size is the sum of the drones' batteries; its range and its behaviour across a tick are `AverageBatteryWithin` and `AverageBatteryNonIncreasing` |
| Metrics.MeanWithin | app/components/DroneSwarmDashboard.jsx:196 | the mean of a left-to-right sum lies within any bounds every value meets |
| Metrics.AverageAltitudeWithin | app/components/DroneSwarmDashboard.jsx:196 | the mean altitude lies between any lower and upper bound of the drones' altitudes |
| Metrics.AverageBatteryWithin | app/components/DroneSwarmDashboard.jsx:209 | the mean battery is a percentage when every battery is |
| Metrics.AverageBatteryNonIncreasing | app/components/DroneSwarmDashboard.jsx:209 | a tick never raises the mean battery |
| Engine.InitialRoster | app/components/DroneSwarmDashboard.jsx:7-11 | three drones with distinct ids, batteries within [0, 100] and empty histories |
| Engine.StepAllKeepsRosterOk | app/components/DroneSwarmDashboard.jsx:23-40 | a tick keeps ids distinct, batteries in [0, 100] and histories at most 21 long |
| Engine.RaisedAlertsReportLow | app/components/DroneSwarmDashboard.jsx:31-33 | every alert a tick raises from non-negative batteries reports a battery in [0, 20) |
| Engine.TickKeepsSwarmOk | app/components/DroneSwarmDashboard.jsx:21-43 | the state after a tick (stepped roster, alerts appended in order) satisfies the engine invariant whenever the state before it did |
| Engine.Swarm.constructor | app/components/DroneSwarmDashboard.jsx:7-16 | the initial state: the roster, mission active, time 0, no alerts, not paused; the invariant holds |
| Engine.Swarm.AddAlert | app/components/DroneSwarmDashboard.jsx:49-51 | the alert list becomes the last 4 old alerts followed by the new one, which is the last 5 of old alerts plus the new one |
| Engine.Swarm.StepOne | app/components/DroneSwarmDashboard.jsx:23-40 | the map callback returns the stepped drone and calls `addAlert` exactly when the new battery is below 20 |
| Engine.Swarm.StepDrones | app/components/DroneSwarmDashboard.jsx:22-42 | the updater returns the stepped roster and leaves the alert list extended by that tick's alerts, in roster order |
| Engine.Swarm.Tick | app/components/DroneSwarmDashboard.jsx:18-47 | while paused nothing changes; otherwise the roster is stepped with the pre-increment time, the tick's alerts are appended (the list being the 5 most recent alerts), the time goes up by exactly 1, and the invariant is kept; pause flag and mission status are outside its frame |
| Engine.Swarm.TogglePause | app/components/DroneSwarmDashboard.jsx:93 | the pause flag flips, nothing else changes, and the invariant is kept |
| Engine.Swarm.Stop | app/components/DroneSwarmDashboard.jsx:99-102 | the mission becomes complete and paused, nothing else changes, and the invariant is kept |
| Engine.FirstTick | app/components/DroneSwarmDashboard.jsx:21-43 | from the initial roster one tick leaves batteries 99.9, 94.9 and 86.9, one sample per drone stamped 0, and elapsed time 1 |
| Engine.PausedTicks | app/components/DroneSwarmDashboard.jsx:19 | five ticks while paused leave time 0, no alerts and the initial batteries |
| Engine.StopThenResume | app/components/DroneSwarmDashboard.jsx:99-102 | after stop, pressing play lets the next tick run (time 1) while the status stays complete |

## Left out

- React machinery is not modelled: `useState`, `useEffect`, state batching,
  strict-mode double invocation, and the effect being torn down and set up
  again whenever `elapsedTime` changes. Each firing of the interval is one
  call of `Swarm.Tick`, applied to the current state.
- Timers are not modelled. `setInterval` and `clearInterval` (lines 21, 44
  and 46) are wall-clock scheduling.
- `Math.random()` (lines 25-27) is not modelled. Its values are the `Draw`
  parameters, each assumed to lie in [0, 1).
- Alert ids from `Date.now()` (line 50) are not modelled, because they are
  wall-clock values. Alert message text built with template literals and
  `toFixed(1)` (line 32) is also left out. An alert is the pair (drone id,
  new battery) the message is built from.
- Floating-point rounding is not modelled. Batteries, coordinates and
  averages are exact reals. Ten drains from 100 give exactly 99.0 here,
  while repeated double subtraction of 0.1 accumulates to
  99.00000000000006.
- Display formatting is left out, because it is presentation: `toFixed` in
  `formatPosition` (line 62), the battery percentage (line 165), and the
  metrics (lines 196, 209 and 215).
- Swarm spread (lines 202-203) is not modelled. It needs `Math.hypot`, a
  floating-point square root.
- Rendering is left out: JSX, the `Visualization3D` placement and scale
  (lines 64-82), icons and the altitude `LineChart` (lines 173-182).
- Division by the roster length in the averages assumes a non-empty roster.
  The roster always has three drones.
- Engine.Swarm.Tick: its postcondition does not restate that the pause flag
  and the mission status are unchanged. Its `modifies` clause leaves them
  out, so callers get that from the frame (as in `PausedTicks`).
