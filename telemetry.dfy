/** The simulation state of one drone and what one tick of the dashboard's
    interval does to it: the position step, the battery drain, the altitude
    history append and the low-battery alert policy. */
module Telemetry {
  import opened Buffers

  /** Battery drained per tick, in percentage points. */
  const BatteryDrain: real := 0.1
  /** A drone whose new battery is strictly below this raises an alert. */
  const LowBattery: real := 20.0
  /** The history is cut to its last 20 samples before one is appended. */
  const HistoryKeep: nat := 20
  /** The alert list is cut to its last 4 alerts before one is appended. */
  const AlertKeep: nat := 4

  datatype Vec3 = Vec3(x: real, y: real, z: real)

  /** The three values `Math.random()` produced for one drone in one tick. */
  datatype Draw = Draw(rx: real, ry: real, rz: real)
  {
    predicate Valid() {
      0.0 <= rx < 1.0 && 0.0 <= ry < 1.0 && 0.0 <= rz < 1.0
    }
  }

  datatype DroneStatus = Initializing | Active | Warning | Error
  {
    /** The status string the dashboard shows and colours. */
    function Label(): string {
      match this
      case Initializing => "initializing"
      case Active => "active"
      case Warning => "warning"
      case Error => "error"
    }
  }

  /** The mission status; nothing in the dashboard sets it back to active. */
  datatype MissionStatus = MissionActive | MissionComplete
  {
    function Label(): string {
      match this
      case MissionActive => "active"
      case MissionComplete => "complete"
    }
  }

  /** One altitude sample of the history chart. */
  datatype Sample = Sample(time: nat, altitude: real)

  datatype Drone = Drone(id: string, position: Vec3, battery: real,
                         status: DroneStatus, history: seq<Sample>)

  /** A low-battery alert: the drone it names and the battery it reports. */
  datatype Alert = Alert(droneId: string, battery: real)

  /** The position after one tick: x and y move by `(r - 0.5) * 2`, z by `r - 0.5`. */
  function Move(p: Vec3, d: Draw): (q: Vec3)
    ensures d.Valid() ==> -1.0 <= q.x - p.x < 1.0 && -1.0 <= q.y - p.y < 1.0
    ensures d.Valid() ==> -0.5 <= q.z - p.z < 0.5
    ensures d == Draw(0.5, 0.5, 0.5) ==> q == p
  {
    Vec3(p.x + (d.rx - 0.5) * 2.0, p.y + (d.ry - 0.5) * 2.0, p.z + (d.rz - 0.5))
  }

  /** `Math.max(battery - 0.1, 0)`. */
  function DrainBattery(b: real): (r: real)
    ensures 0.0 <= r
    ensures r == 0.0 <==> b <= BatteryDrain
    ensures r > 0.0 ==> r == b - BatteryDrain
    ensures 0.0 <= b ==> r <= b
    ensures 0.0 < b ==> r < b
  {
    if b - BatteryDrain > 0.0 then b - BatteryDrain else 0.0
  }

  /** What one tick does to one drone; `t` is the elapsed time read before
      the tick increments it. */
  function StepDrone(d: Drone, r: Draw, t: nat): (n: Drone)
    ensures n.id == d.id && n.status == d.status
    ensures n.position == Move(d.position, r)
    ensures n.battery == DrainBattery(d.battery)
    ensures |n.history| == Min(HistoryKeep, |d.history|) + 1
    ensures n.history[|n.history| - 1] == Sample(t, n.position.z)
    ensures forall k :: 0 <= k < |n.history| - 1 ==>
              n.history[k] == d.history[|d.history| - (|n.history| - 1) + k]
    ensures r.Valid() ==> -0.5 <= n.position.z - d.position.z < 0.5
  {
    var p := Move(d.position, r);
    d.(position := p,
       battery := DrainBattery(d.battery),
       history := Push(d.history, Sample(t, p.z), HistoryKeep))
  }

  /** The roster after one tick: `prevDrones.map(...)`, in roster order. */
  function StepAll(ds: seq<Drone>, rs: seq<Draw>, t: nat): (ns: seq<Drone>)
    requires |rs| == |ds|
    ensures |ns| == |ds|
  {
    if ds == [] then []
    else StepAll(ds[..|ds| - 1], rs[..|rs| - 1], t)
         + [StepDrone(ds[|ds| - 1], rs[|rs| - 1], t)]
  }

  /** Drone `i` of the new roster is drone `i` of the old one stepped with
      its own draw. */
  lemma {:induction false} StepAllIndex(ds: seq<Drone>, rs: seq<Draw>, t: nat, i: nat)
    requires |rs| == |ds| && i < |ds|
    ensures StepAll(ds, rs, t)[i] == StepDrone(ds[i], rs[i], t)
  {
    var n := |ds| - 1;
    var front := StepAll(ds[..n], rs[..n], t);
    assert StepAll(ds, rs, t) == front + [StepDrone(ds[n], rs[n], t)];
    assert |front| == n;
    if i < n {
      StepAllIndex(ds[..n], rs[..n], t, i);
      assert ds[..n][i] == ds[i] && rs[..n][i] == rs[i];
      assert StepAll(ds, rs, t)[i] == front[i];
      assert front[i] == StepDrone(ds[i], rs[i], t);
    } else {
      assert StepAll(ds, rs, t)[i] == StepDrone(ds[n], rs[n], t);
    }
  }

  /** The map neither reorders, drops nor mixes drones. */
  lemma StepAllAt(ds: seq<Drone>, rs: seq<Draw>, t: nat)
    requires |rs| == |ds|
    ensures forall i :: 0 <= i < |ds| ==> StepAll(ds, rs, t)[i] == StepDrone(ds[i], rs[i], t)
  {
    forall i | 0 <= i < |ds| ensures StepAll(ds, rs, t)[i] == StepDrone(ds[i], rs[i], t) {
      StepAllIndex(ds, rs, t, i);
    }
  }

  /** A tick keeps the roster's size and order and every drone's id and
      status; only position, battery and history change. */
  lemma StepAllKeepsRoster(ds: seq<Drone>, rs: seq<Draw>, t: nat)
    requires |rs| == |ds|
    ensures |StepAll(ds, rs, t)| == |ds|
    ensures forall i :: 0 <= i < |ds| ==>
              StepAll(ds, rs, t)[i].id == ds[i].id && StepAll(ds, rs, t)[i].status == ds[i].status
  {
    StepAllAt(ds, rs, t);
  }

  /** Stepping one more drone of the roster appends its new state. */
  lemma StepAllPrefix(ds: seq<Drone>, rs: seq<Draw>, t: nat, i: nat)
    requires |rs| == |ds| && i < |ds|
    ensures StepAll(ds[..i + 1], rs[..i + 1], t)
            == StepAll(ds[..i], rs[..i], t) + [StepDrone(ds[i], rs[i], t)]
  {
    assert ds[..i + 1][..i] == ds[..i];
    assert rs[..i + 1][..i] == rs[..i];
  }

  /** The alert `addAlert` receives for a drone: its id and its new battery,
      the two values the warning message is built from. */
  function AlertFor(d: Drone): (a: Alert)
    ensures a.droneId == d.id && a.battery == d.battery
  {
    Alert(d.id, d.battery)
  }

  /** The alerts one tick raises, given the drones as that tick left them:
      one per drone whose battery is below the threshold, in roster order. */
  function RaisedAlerts(ds: seq<Drone>): (r: seq<Alert>)
    ensures |r| <= |ds|
    ensures forall i :: 0 <= i < |ds| ==> (ds[i].battery < LowBattery <==> AlertFor(ds[i]) in r)
    ensures forall j :: 0 <= j < |r| ==> r[j].battery < LowBattery
  {
    if ds == [] then []
    else
      var last := ds[|ds| - 1];
      RaisedAlerts(ds[..|ds| - 1]) + (if last.battery < LowBattery then [AlertFor(last)] else [])
  }

  /** Every raised alert names a drone of the roster and reports its battery. */
  lemma {:induction false} RaisedAlertsFromRoster(ds: seq<Drone>)
    ensures forall j :: 0 <= j < |RaisedAlerts(ds)| ==>
              exists i :: 0 <= i < |ds| && RaisedAlerts(ds)[j] == AlertFor(ds[i])
  {
    if ds != [] {
      var front := ds[..|ds| - 1];
      var last := ds[|ds| - 1];
      RaisedAlertsFromRoster(front);
      assert ds == front + [last];
      RaisedAlertsSnoc(front, last);
      var r := RaisedAlerts(ds);
      forall j | 0 <= j < |r| ensures exists i :: 0 <= i < |ds| && r[j] == AlertFor(ds[i]) {
        if j < |RaisedAlerts(front)| {
          var i :| 0 <= i < |front| && RaisedAlerts(front)[j] == AlertFor(front[i]);
          assert ds[i] == front[i];
        } else {
          assert r[j] == AlertFor(last);
        }
      }
    } else {
      assert |RaisedAlerts(ds)| == 0;
    }
  }

  lemma RaisedAlertsSnoc(ds: seq<Drone>, d: Drone)
    ensures RaisedAlerts(ds + [d]) ==
              RaisedAlerts(ds) + (if d.battery < LowBattery then [AlertFor(d)] else [])
  {
    assert (ds + [d])[..|ds|] == ds;
  }

  /** A drone at 20.05 drops to 19.95 and so raises exactly one alert, which
      names it and reports 19.95. */
  lemma CrossingTheThreshold(d: Drone, r: Draw, t: nat)
    requires d.battery == 20.05
    ensures StepDrone(d, r, t).battery == 19.95
    ensures RaisedAlerts([StepDrone(d, r, t)]) == [Alert(d.id, 19.95)]
  {
    var n := StepDrone(d, r, t);
    assert [n][..0] == [];
  }

  /** Alerts of one part of the roster come before those of a later part. */
  lemma {:induction false} RaisedAlertsInRosterOrder(a: seq<Drone>, b: seq<Drone>)
    ensures RaisedAlerts(a + b) == RaisedAlerts(a) + RaisedAlerts(b)
  {
    if b == [] {
      assert a + b == a;
    } else {
      var front := b[..|b| - 1];
      assert (a + b)[..|a + b| - 1] == a + front;
      assert (a + b)[|a + b| - 1] == b[|b| - 1];
      RaisedAlertsInRosterOrder(a, front);
    }
  }

  /** One drone over consecutive executed ticks, the k-th of which reads
      elapsed time `t + k`. */
  function Fly(d: Drone, rs: seq<Draw>, t: nat): (n: Drone)
    ensures n.id == d.id && n.status == d.status
  {
    if rs == [] then d
    else StepDrone(Fly(d, rs[..|rs| - 1], t), rs[|rs| - 1], t + |rs| - 1)
  }

  function MaxReal(a: real, b: real): real { if a >= b then a else b }

  /** After n ticks a battery is `max(b - 0.1 n, 0)`: it never rises, never
      goes below 0, and once empty stays empty. */
  lemma {:induction false} FlyBattery(d: Drone, rs: seq<Draw>, t: nat)
    requires 0.0 <= d.battery
    ensures Fly(d, rs, t).battery == MaxReal(d.battery - |rs| as real * BatteryDrain, 0.0)
  {
    if rs != [] {
      FlyBattery(d, rs[..|rs| - 1], t);
    }
  }

  lemma EmptyBatteryStaysEmpty(d: Drone, rs: seq<Draw>, t: nat)
    requires d.battery == 0.0
    ensures Fly(d, rs, t).battery == 0.0
  {
    FlyBattery(d, rs, t);
  }

  /** Starting from an empty history, after n ticks the history holds the
      `min(n, 21)` most recent samples, oldest first, stamped with the
      consecutive times up to `t + n - 1`. */
  lemma {:induction false} FlyHistory(d: Drone, rs: seq<Draw>, t: nat)
    requires d.history == []
    ensures |Fly(d, rs, t).history| == Min(|rs|, HistoryKeep + 1)
    ensures forall k :: 0 <= k < |Fly(d, rs, t).history| ==>
              Fly(d, rs, t).history[k].time == t + |rs| - |Fly(d, rs, t).history| + k
  {
    if rs != [] {
      var prev := Fly(d, rs[..|rs| - 1], t).history;
      FlyHistory(d, rs[..|rs| - 1], t);
      var h := Fly(d, rs, t).history;
      forall k | 0 <= k < |h| ensures h[k].time == t + |rs| - |h| + k {
        if k < |h| - 1 {
          assert h[k] == prev[|prev| - (|h| - 1) + k];
        }
      }
    }
  }

  /** Twenty-five ticks from time 0 leave 21 samples, for times 4 to 24. */
  lemma TwentyFiveTicks(d: Drone, rs: seq<Draw>)
    requires d.history == [] && |rs| == 25
    ensures |Fly(d, rs, 0).history| == 21
    ensures Fly(d, rs, 0).history[0].time == 4
    ensures Fly(d, rs, 0).history[20].time == 24
  {
    FlyHistory(d, rs, 0);
  }
}
