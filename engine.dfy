/** The dashboard's mutable engine state and the steps that change it: the
    interval tick, `addAlert`, the pause toggle and the stop button. */
module Engine {
  import opened Buffers
  import opened Telemetry

  /** The fixed roster the dashboard starts with. */
  function InitialRoster(): (ds: seq<Drone>)
    ensures |ds| == 3
    ensures forall i :: 0 <= i < 3 ==> ds[i].history == [] && 0.0 <= ds[i].battery <= 100.0
    ensures forall i, j :: 0 <= i < j < 3 ==> ds[i].id != ds[j].id
  {
    [ Drone("Drone_0", Vec3(0.0, 0.0, 0.0), 100.0, Initializing, []),
      Drone("Drone_1", Vec3(10.0, 10.0, 5.0), 95.0, Active, []),
      Drone("Drone_2", Vec3(-5.0, 8.0, 10.0), 87.0, Active, []) ]
  }

  /** What holds of every drone between ticks. */
  ghost predicate DroneOk(d: Drone) {
    0.0 <= d.battery <= 100.0 && |d.history| <= HistoryKeep + 1
  }

  /** Three drones with distinct ids, batteries within [0, 100], at most 21
      history samples each, and at most 5 alerts, each reporting a battery in
      [0, 20). */
  ghost predicate SwarmOk(ds: seq<Drone>, alerts: seq<Alert>) {
    && |ds| == 3
    && (forall i, j :: 0 <= i < j < |ds| ==> ds[i].id != ds[j].id)
    && (forall i :: 0 <= i < |ds| ==> DroneOk(ds[i]))
    && |alerts| <= AlertKeep + 1
    && (forall a :: a in alerts ==> 0.0 <= a.battery < LowBattery)
  }

  lemma StepAllKeepsRosterOk(ds: seq<Drone>, rs: seq<Draw>, t: nat)
    requires |rs| == |ds|
    requires forall i, j :: 0 <= i < j < |ds| ==> ds[i].id != ds[j].id
    requires forall i :: 0 <= i < |ds| ==> DroneOk(ds[i])
    ensures forall i, j :: 0 <= i < j < |ds| ==> StepAll(ds, rs, t)[i].id != StepAll(ds, rs, t)[j].id
    ensures forall i :: 0 <= i < |ds| ==> DroneOk(StepAll(ds, rs, t)[i])
  {
    StepAllAt(ds, rs, t);
  }

  lemma RaisedAlertsReportLow(ds: seq<Drone>)
    requires forall i :: 0 <= i < |ds| ==> 0.0 <= ds[i].battery
    ensures forall a :: a in RaisedAlerts(ds) ==> 0.0 <= a.battery < LowBattery
  {
    RaisedAlertsFromRoster(ds);
  }

  /** A tick keeps the roster and the alert buffer well formed. */
  lemma TickKeepsSwarmOk(ds: seq<Drone>, rs: seq<Draw>, t: nat, alerts: seq<Alert>,
                         next: seq<Drone>, alerts': seq<Alert>)
    requires SwarmOk(ds, alerts) && |rs| == |ds|
    requires next == StepAll(ds, rs, t)
    requires alerts' == PushAll(alerts, RaisedAlerts(next), AlertKeep)
    ensures SwarmOk(next, alerts')
  {
    StepAllKeepsRosterOk(ds, rs, t);
    RaisedAlertsReportLow(next);
  }

  /** One more drone through the map callback: its new state is appended to
      the stepped prefix, and its alert, if any, to the alerts raised so far. */
  lemma StepDronesStep(a0: seq<Alert>, ds: seq<Drone>, rs: seq<Draw>, t: nat, i: nat)
    requires |rs| == |ds| && i < |ds|
    ensures StepAll(ds[..i + 1], rs[..i + 1], t)
            == StepAll(ds[..i], rs[..i], t) + [StepDrone(ds[i], rs[i], t)]
    ensures var d, next := StepDrone(ds[i], rs[i], t), StepAll(ds[..i], rs[..i], t);
            PushAll(a0, RaisedAlerts(next + [d]), AlertKeep)
            == if d.battery < LowBattery
               then Push(PushAll(a0, RaisedAlerts(next), AlertKeep), AlertFor(d), AlertKeep)
               else PushAll(a0, RaisedAlerts(next), AlertKeep)
  {
    var d, next := StepDrone(ds[i], rs[i], t), StepAll(ds[..i], rs[..i], t);
    StepAllPrefix(ds, rs, t, i);
    RaisedAlertsSnoc(next, d);
    if d.battery < LowBattery {
      PushAllSnoc(a0, RaisedAlerts(next), AlertFor(d), AlertKeep);
    } else {
      assert RaisedAlerts(next + [d]) == RaisedAlerts(next);
    }
  }

  class Swarm {
    var drones: seq<Drone>
    var missionStatus: MissionStatus
    var elapsedTime: nat
    var alerts: seq<Alert>
    var isPaused: bool

    ghost predicate Valid()
      reads this
    {
      SwarmOk(drones, alerts)
    }

    constructor ()
      ensures Valid()
      ensures drones == InitialRoster() && missionStatus == MissionActive
      ensures elapsedTime == 0 && alerts == [] && !isPaused
    {
      drones := InitialRoster();
      missionStatus := MissionActive;
      elapsedTime := 0;
      alerts := [];
      isPaused := false;
    }

    /** `addAlert`: keep the last 4 alerts, then append the new one. */
    method AddAlert(a: Alert)
      modifies this`alerts
      ensures alerts == Push(old(alerts), a, AlertKeep)
      ensures alerts == KeepLast(old(alerts) + [a], AlertKeep + 1)
    {
      var was := alerts;
      PushIsWindow(was, a, AlertKeep);
      alerts := Push(was, a, AlertKeep);
    }

    /** The callback mapped over the roster: step one drone and call
        `addAlert` when its new battery is below 20. */
    method StepOne(d: Drone, r: Draw, t: nat) returns (n: Drone)
      modifies this`alerts
      ensures n == StepDrone(d, r, t)
      ensures n.battery < LowBattery ==> alerts == Push(old(alerts), AlertFor(n), AlertKeep)
      ensures LowBattery <= n.battery ==> alerts == old(alerts)
    {
      n := StepDrone(d, r, t);
      if n.battery < LowBattery {
        AddAlert(AlertFor(n));
      }
    }

    /** The updater passed to `setDrones`: map every drone of the previous
        roster through one step, in roster order, calling `addAlert` for each
        drone whose new battery is below 20. `t` is the elapsed time the
        updater closes over. The roster itself is not replaced here. */
    method StepDrones(prevDrones: seq<Drone>, draws: seq<Draw>, t: nat) returns (next: seq<Drone>)
      requires |draws| == |prevDrones|
      modifies this`alerts
      ensures next == StepAll(prevDrones, draws, t)
      ensures alerts == PushAll(old(alerts), RaisedAlerts(next), AlertKeep)
    {
      var a0 := alerts;
      next := [];
      var i := 0;
      while i < |prevDrones|
        invariant 0 <= i <= |prevDrones|
        invariant next == StepAll(prevDrones[..i], draws[..i], t)
        invariant alerts == PushAll(a0, RaisedAlerts(next), AlertKeep)
      {
        var d := StepOne(prevDrones[i], draws[i], t);
        StepDronesStep(a0, prevDrones, draws, t, i);
        next := next + [d];
        i := i + 1;
      }
      assert prevDrones[..i] == prevDrones && draws[..i] == draws;
    }

    /** One firing of the interval. Nothing happens while paused; otherwise
        the roster is replaced by its stepped copy (alerts raised on the way)
        and the elapsed time goes up by one. The history samples carry the
        elapsed time read before the increment. The mission status is not
        consulted. */
    method Tick(draws: seq<Draw>)
      requires Valid()
      requires |draws| == |drones| && forall i :: 0 <= i < |draws| ==> draws[i].Valid()
      modifies this`drones, this`elapsedTime, this`alerts
      ensures Valid()
      ensures old(isPaused) ==> drones == old(drones) && alerts == old(alerts)
                                && elapsedTime == old(elapsedTime)
      ensures !old(isPaused) ==> drones == StepAll(old(drones), draws, old(elapsedTime))
      ensures !old(isPaused) ==> alerts == PushAll(old(alerts), RaisedAlerts(drones), AlertKeep)
      ensures !old(isPaused) ==> elapsedTime == old(elapsedTime) + 1
      ensures !old(isPaused) && RaisedAlerts(drones) != [] ==>
                alerts == KeepLast(old(alerts) + RaisedAlerts(drones), AlertKeep + 1)
    {
      if isPaused {
        return;
      }
      var ds, was := drones, alerts;
      var next := StepDrones(ds, draws, elapsedTime);
      drones := next;
      elapsedTime := elapsedTime + 1;
      TickKeepsSwarmOk(ds, draws, old(elapsedTime), was, drones, alerts);
      if RaisedAlerts(next) != [] {
        PushAllIsWindow(was, RaisedAlerts(next), AlertKeep);
      }
    }

    /** The play/pause button: flip the pause flag and nothing else. */
    method TogglePause()
      modifies this`isPaused
      ensures isPaused == !old(isPaused)
      ensures old(Valid()) ==> Valid()
    {
      isPaused := !isPaused;
    }

    /** The stop button: the mission is complete and ticking is paused. */
    method Stop()
      modifies this`missionStatus, this`isPaused
      ensures missionStatus == MissionComplete && isPaused
      ensures old(Valid()) ==> Valid()
    {
      missionStatus := MissionComplete;
      isPaused := true;
    }
  }

  /** The first tick from the initial roster drains every battery by 0.1
      and gives every drone one sample stamped with time 0. */
  method FirstTick() returns (batteries: seq<real>, times: seq<nat>, elapsed: nat)
    ensures batteries == [99.9, 94.9, 86.9]
    ensures times == [0, 0, 0] && elapsed == 1
  {
    var s := new Swarm();
    var still := Draw(0.5, 0.5, 0.5);
    StepAllAt(s.drones, [still, still, still], 0);
    s.Tick([still, still, still]);
    assert |s.drones[0].history| == 1 && |s.drones[1].history| == 1 && |s.drones[2].history| == 1;
    batteries := [s.drones[0].battery, s.drones[1].battery, s.drones[2].battery];
    times := [s.drones[0].history[0].time, s.drones[1].history[0].time, s.drones[2].history[0].time];
    elapsed := s.elapsedTime;
  }

  /** Ticks while paused change nothing. */
  method PausedTicks() returns (elapsed: nat, alertCount: nat, batteries: seq<real>)
    ensures elapsed == 0 && alertCount == 0 && batteries == [100.0, 95.0, 87.0]
  {
    var s := new Swarm();
    s.TogglePause();
    var still := Draw(0.5, 0.5, 0.5);
    var n := 0;
    while n < 5
      invariant s.Valid() && s.isPaused
      invariant s.drones == InitialRoster() && s.elapsedTime == 0 && s.alerts == []
    {
      s.Tick([still, still, still]);
      n := n + 1;
    }
    elapsed, alertCount := s.elapsedTime, |s.alerts|;
    batteries := [s.drones[0].battery, s.drones[1].battery, s.drones[2].battery];
  }

  /** Stopping pauses the mission, but toggling pause afterwards makes the
      interval tick again while the status stays complete. */
  method StopThenResume() returns (elapsed: nat, status: MissionStatus)
    ensures elapsed == 1 && status == MissionComplete
  {
    var s := new Swarm();
    s.Stop();
    s.TogglePause();
    var still := Draw(0.5, 0.5, 0.5);
    s.Tick([still, still, still]);
    elapsed, status := s.elapsedTime, s.missionStatus;
  }
}
