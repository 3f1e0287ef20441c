/** Values the dashboard derives from the engine state on every render and
    never stores: colours, the mission clock, progress and fleet averages. */
module Metrics {
  import opened Telemetry

  /** Length of the mission window, in ticks. */
  const MissionTicks: nat := 300

  /** The hue of a Tailwind colour class (`text-green-500`, `bg-blue-600`, ...). */
  datatype Color = Green | Yellow | Red | Blue

  /** `getStatusColor`: a switch on the status string with a blue default. */
  function StatusColor(status: string): (c: Color)
    ensures c == Green <==> status == "active"
    ensures c == Yellow <==> status == "warning"
    ensures c == Red <==> status == "error"
    ensures c == Blue <==> status != "active" && status != "warning" && status != "error"
  {
    if status == "active" then Green
    else if status == "warning" then Yellow
    else if status == "error" then Red
    else Blue
  }

  /** A completed mission and an initializing drone fall to the default colour. */
  lemma StatusColorOfLabels()
    ensures StatusColor(MissionComplete.Label()) == Blue
    ensures StatusColor(MissionActive.Label()) == Green
    ensures StatusColor(Initializing.Label()) == Blue
    ensures forall s: DroneStatus :: StatusColor(s.Label()) != Blue <==> s != Initializing
  {
    assert MissionComplete.Label() != "active";
    assert Initializing.Label() != "active";
    assert Initializing.Label() != "warning";
    assert Initializing.Label() != "error";
  }

  /** The battery bar's colour band. */
  function BatteryBand(battery: real): (c: Color)
    ensures c == Blue <==> battery > 50.0
    ensures c == Yellow <==> 20.0 < battery <= 50.0
    ensures c == Red <==> battery <= 20.0
  {
    if battery > 50.0 then Blue
    else if battery > 20.0 then Yellow
    else Red
  }

  /** A drone that raises a low-battery alert is always drawn red; at exactly
      20 it is red without an alert. */
  lemma AlertedDroneIsRed(d: Drone)
    ensures AlertFor(d) in RaisedAlerts([d]) ==> BatteryBand(d.battery) == Red
    ensures d.battery == LowBattery ==> BatteryBand(d.battery) == Red && RaisedAlerts([d]) == []
  {
    if AlertFor(d) in RaisedAlerts([d]) {
      assert [d][0] == d;
    }
    if d.battery == LowBattery {
      assert RaisedAlerts([d]) == RaisedAlerts([d][..0]) + [];
    }
  }

  /** The mission clock shown as minutes and seconds. */
  function MissionTime(elapsed: nat): (r: (nat, nat))
    ensures r.0 * 60 + r.1 == elapsed
    ensures r.1 < 60
  {
    (elapsed / 60, elapsed % 60)
  }

  /** `Math.min(100, elapsed / 300 * 100)`. */
  function MissionProgress(elapsed: nat): (p: real)
    ensures 0.0 <= p <= 100.0
    ensures p == 100.0 <==> elapsed >= MissionTicks
    ensures elapsed < MissionTicks ==> p == elapsed as real / 3.0
  {
    var ramp := elapsed as real / MissionTicks as real * 100.0;
    if 100.0 <= ramp then 100.0 else ramp
  }

  lemma MissionProgressMonotone(e1: nat, e2: nat)
    requires e1 <= e2
    ensures MissionProgress(e1) <= MissionProgress(e2)
  {
  }

  /** Left-to-right sum, as `reduce((acc, v) => acc + v, 0)`. */
  function Sum(xs: seq<real>): real {
    if xs == [] then 0.0 else Sum(xs[..|xs| - 1]) + xs[|xs| - 1]
  }

  lemma {:induction false} SumWithin(xs: seq<real>, lo: real, hi: real)
    requires forall i :: 0 <= i < |xs| ==> lo <= xs[i] <= hi
    ensures |xs| as real * lo <= Sum(xs) <= |xs| as real * hi
  {
    if xs != [] {
      var front, last := xs[..|xs| - 1], xs[|xs| - 1];
      var n := |front| as real;
      SumWithin(front, lo, hi);
      assert Sum(xs) == Sum(front) + last;
      assert |xs| as real * lo == n * lo + lo && |xs| as real * hi == n * hi + hi;
    }
  }

  lemma {:induction false} SumMonotone(xs: seq<real>, ys: seq<real>)
    requires |xs| == |ys|
    requires forall i :: 0 <= i < |xs| ==> xs[i] <= ys[i]
    ensures Sum(xs) <= Sum(ys)
  {
    if xs != [] {
      SumMonotone(xs[..|xs| - 1], ys[..|ys| - 1]);
    }
  }

  function Mean(xs: seq<real>): (m: real)
    requires |xs| > 0
    ensures m * |xs| as real == Sum(xs)
  {
    Sum(xs) / |xs| as real
  }

  /** The mean lies within any bounds that hold for every value. */
  lemma MeanWithin(xs: seq<real>, lo: real, hi: real)
    requires |xs| > 0
    requires forall i :: 0 <= i < |xs| ==> lo <= xs[i] <= hi
    ensures lo <= Mean(xs) <= hi
  {
    SumWithin(xs, lo, hi);
  }

  function Altitudes(ds: seq<Drone>): (zs: seq<real>)
    ensures |zs| == |ds| && forall i :: 0 <= i < |ds| ==> zs[i] == ds[i].position.z
  {
    seq(|ds|, i requires 0 <= i < |ds| => ds[i].position.z)
  }

  function Batteries(ds: seq<Drone>): (bs: seq<real>)
    ensures |bs| == |ds| && forall i :: 0 <= i < |ds| ==> bs[i] == ds[i].battery
  {
    seq(|ds|, i requires 0 <= i < |ds| => ds[i].battery)
  }

  /** Mean altitude of the fleet; the roster is never empty. */
  function AverageAltitude(ds: seq<Drone>): (a: real)
    requires |ds| > 0
    ensures a * |ds| as real == Sum(Altitudes(ds))
  {
    Mean(Altitudes(ds))
  }

  /** The mean altitude lies between the lowest and the highest drone. */
  lemma AverageAltitudeWithin(ds: seq<Drone>, lo: real, hi: real)
    requires |ds| > 0
    requires forall i :: 0 <= i < |ds| ==> lo <= ds[i].position.z <= hi
    ensures lo <= AverageAltitude(ds) <= hi
  {
    MeanWithin(Altitudes(ds), lo, hi);
  }

  /** Mean battery of the fleet; the roster is never empty. */
  function AverageBattery(ds: seq<Drone>): (a: real)
    requires |ds| > 0
    ensures a * |ds| as real == Sum(Batteries(ds))
  {
    Mean(Batteries(ds))
  }

  /** The mean battery is a percentage when every battery is. */
  lemma AverageBatteryWithin(ds: seq<Drone>)
    requires |ds| > 0
    requires forall i :: 0 <= i < |ds| ==> 0.0 <= ds[i].battery <= 100.0
    ensures 0.0 <= AverageBattery(ds) <= 100.0
  {
    MeanWithin(Batteries(ds), 0.0, 100.0);
  }

  lemma DivideMonotone(a: real, b: real, n: real)
    requires a <= b && 0.0 < n
    ensures a / n <= b / n
  {
    assert (a / n) * n == a && (b / n) * n == b;
  }

  /** A tick never raises the fleet's mean battery. */
  lemma AverageBatteryNonIncreasing(ds: seq<Drone>, rs: seq<Draw>, t: nat)
    requires |ds| > 0 && |rs| == |ds|
    requires forall i :: 0 <= i < |ds| ==> 0.0 <= ds[i].battery
    ensures AverageBattery(StepAll(ds, rs, t)) <= AverageBattery(ds)
  {
    var before, after := Batteries(ds), Batteries(StepAll(ds, rs, t));
    StepAllAt(ds, rs, t);
    SumMonotone(after, before);
    DivideMonotone(Sum(after), Sum(before), |ds| as real);
  }
}
