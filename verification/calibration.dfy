/**
 * The gyroscope drift calibrator. The source polls for a fixed wall-clock
 * window; here the window is the finite list of passes the loop made, each
 * pass preceded by the register updates the sensor made since the last one.
 */
module Calibration {
  import opened Wrappers
  import opened Registers
  import opened Transport
  import opened Access
  import opened Handle
  import opened Samples

  /**
   * What polling saw: for each pass whether new gyroscope data was reported,
   * the readings taken on the passes that saw some (`None` for a NaN
   * reading), the bus afterwards and the bus actions.
   */
  datatype Polled = Polled(ready: seq<bool>, readings: seq<Option<Vec3>>, bus: Bus, trace: seq<Event>)

  /** One pass of the loop: the sensor updates its registers, then the driver checks the status and, if data is ready, reads it. */
  function Poll(d: Driver, bus: Bus, tick: Tick): (r: Polled)
    ensures |r.ready| == 1
    ensures r.ready[0] <==> GyroscopeAvailable(d, bus.Apply(tick)).value == 1
    ensures |r.readings| == (if r.ready[0] then 1 else 0)
    ensures r.ready[0] ==> r.readings[0] == ReadGyroscope(d, GyroscopeAvailable(d, bus.Apply(tick)).bus).value
    ensures bus.Reliable() ==> r.bus.Reliable()
    ensures Writes(r.trace) == []
  {
    var now := bus.Apply(tick);
    var status := GyroscopeAvailable(d, now);
    if status.value != 1 then
      Polled([false], [], status.bus, status.trace)
    else
      var gyro := ReadGyroscope(d, status.bus);
      WritesAppend(status.trace, gyro.trace);
      Polled([true], [gyro.value], gyro.bus, status.trace + gyro.trace)
  }

  /** How many passes saw new data. */
  function Count(ready: seq<bool>): nat {
    if |ready| == 0 then 0 else (if ready[0] then 1 else 0) + Count(ready[1..])
  }

  /** Some pass reported new gyroscope data. */
  predicate SawData(ready: seq<bool>) {
    exists i :: 0 <= i < |ready| && ready[i]
  }

  /** Some pass saw data exactly when the count is positive. */
  lemma {:induction false} CountPositive(ready: seq<bool>)
    ensures Count(ready) > 0 <==> SawData(ready)
  {
    if |ready| > 0 {
      CountPositive(ready[1..]);
      if exists i :: 1 <= i < |ready| && ready[i] {
        var i :| 1 <= i < |ready| && ready[i];
        assert ready[1..][i - 1];
      }
      if exists j :: 0 <= j < |ready[1..]| && ready[1..][j] {
        var j :| 0 <= j < |ready[1..]| && ready[1..][j];
        assert ready[j + 1];
      }
    }
  }

  /** The whole polling loop, one pass per tick, in order. */
  function Window(d: Driver, bus: Bus, window: seq<Tick>): (r: Polled)
    ensures |r.ready| == |window|
    ensures |r.readings| == Count(r.ready)
    ensures bus.Reliable() ==> r.bus.Reliable()
    ensures Writes(r.trace) == []
    decreases |window|
  {
    if |window| == 0 then
      Polled([], [], bus, [])
    else
      var first := Poll(d, bus, window[0]);
      var rest := Window(d, first.bus, window[1..]);
      WritesAppend(first.trace, rest.trace);
      assert (first.ready + rest.ready)[1..] == rest.ready;
      Polled(first.ready + rest.ready, first.readings + rest.readings, rest.bus, first.trace + rest.trace)
  }

  /** The loop's readings are the first pass's followed by the remaining passes'. */
  lemma WindowCons(d: Driver, bus: Bus, window: seq<Tick>)
    requires |window| > 0
    ensures Window(d, bus, window).readings
         == Poll(d, bus, window[0]).readings + Window(d, Poll(d, bus, window[0]).bus, window[1..]).readings
  {
  }

  /** Float addition of one reading into a running sum; NaN absorbs everything. */
  function AddReading(sum: Option<Vec3>, reading: Option<Vec3>): Option<Vec3> {
    if sum.Some? && reading.Some? then
      Some(Vec3(sum.value.x + reading.value.x, sum.value.y + reading.value.y, sum.value.z + reading.value.z))
    else None
  }

  /** The per-axis division of a sum by the number of samples; NaN stays NaN. */
  function Divide(sum: Option<Vec3>, n: nat): Option<Vec3>
    requires n > 0
  {
    match sum
    case Some(s) => Some(Vec3(s.x / n as real, s.y / n as real, s.z / n as real))
    case None => None
  }

  /** Reference sum of a list of readings, defined from its last element. */
  function Total(readings: seq<Option<Vec3>>): Option<Vec3> {
    if |readings| == 0 then Some(Zero)
    else AddReading(Total(readings[..|readings| - 1]), readings[|readings| - 1])
  }

  /** Reference per-axis mean of a non-empty list of readings. */
  function Mean(readings: seq<Option<Vec3>>): Option<Vec3>
    requires |readings| > 0
  {
    Divide(Total(readings), |readings|)
  }

  /** The loop's accumulation: a sample counter and three running sums, updated front to back. */
  function Accumulate(readings: seq<Option<Vec3>>, samples: nat, sum: Option<Vec3>): (r: (nat, Option<Vec3>))
    ensures r.0 == samples + |readings|
    decreases |readings|
  {
    if |readings| == 0 then (samples, sum)
    else Accumulate(readings[1..], samples + 1, AddReading(sum, readings[0]))
  }

  /** Starting from the sum of a prefix, the loop ends with the sum of everything. */
  lemma {:induction false} AccumulateFrom(readings: seq<Option<Vec3>>, k: nat)
    requires k <= |readings|
    ensures Accumulate(readings[k..], k, Total(readings[..k])) == (|readings|, Total(readings))
    decreases |readings| - k
  {
    if k == |readings| {
      assert readings[..k] == readings;
    } else {
      assert readings[..k + 1][..k] == readings[..k];
      assert Total(readings[..k + 1]) == AddReading(Total(readings[..k]), readings[k]);
      assert readings[k..][1..] == readings[k + 1..];
      AccumulateFrom(readings, k + 1);
    }
  }

  /** The loop run from zero computes the count and the reference sum. */
  lemma AccumulateTotal(readings: seq<Option<Vec3>>)
    ensures Accumulate(readings, 0, Some(Zero)) == (|readings|, Total(readings))
  {
    AccumulateFrom(readings, 0);
    assert readings[0..] == readings;
  }

  /**
   * What the loop's counter and sums amount to: some pass saw data exactly
   * when the counter is positive, and then the divided sums are the mean.
   */
  lemma LoopOutcome(ready: seq<bool>, readings: seq<Option<Vec3>>)
    requires |readings| == Count(ready)
    ensures Accumulate(readings, 0, Some(Zero)).0 == |readings|
    ensures |readings| > 0 <==> SawData(ready)
    ensures |readings| > 0 ==> Divide(Accumulate(readings, 0, Some(Zero)).1, |readings|) == Mean(readings)
  {
    CountPositive(ready);
    AccumulateTotal(readings);
  }

  /** The outcome of `calibrate`: success, the driver afterwards, the bus afterwards and the bus actions. */
  datatype Calibrated = Calibrated(ok: bool, driver: Driver, bus: Bus, trace: seq<Event>)

  /**
   * `calibrate`: false, with the drift untouched, when no pass saw new
   * gyroscope data; otherwise true with each drift the mean of the readings.
   */
  function Calibrate(d: Driver, bus: Bus, window: seq<Tick>): (r: Calibrated)
    ensures r.ok <==> SawData(Window(d, bus, window).ready)
    ensures r.ok <==> |Window(d, bus, window).readings| > 0
    ensures !r.ok ==> r.driver == d
    ensures r.ok ==> r.driver == d.(drift := Mean(Window(d, bus, window).readings))
    ensures r.trace == Window(d, bus, window).trace
    ensures r.bus == Window(d, bus, window).bus
    ensures Writes(r.trace) == []
  {
    var w := Window(d, bus, window);
    var loop := Accumulate(w.readings, 0, Some(Zero));
    LoopOutcome(w.ready, w.readings);
    if loop.0 == 0 then Calibrated(false, d, w.bus, w.trace)
    else
      Calibrated(true, d.(drift := Divide(loop.1, loop.0)), w.bus, w.trace)
  }

  /** `v` added to itself `n` times. */
  function Times(n: nat, v: Vec3): Vec3 {
    Vec3(n as real * v.x, n as real * v.y, n as real * v.z)
  }

  lemma Distribute(m: real, k: real, a: real)
    requires k == m + 1.0
    ensures k * a == m * a + a
  {
  }

  /** Adding `v` once more to `n` copies of it gives `n + 1` copies. */
  lemma AddOneMore(n: nat, v: Vec3)
    ensures AddReading(Some(Times(n, v)), Some(v)) == Some(Times(n + 1, v))
  {
    var t := Times(n, v);
    var u := Times(n + 1, v);
    Distribute(n as real, (n + 1) as real, v.x);
    Distribute(n as real, (n + 1) as real, v.y);
    Distribute(n as real, (n + 1) as real, v.z);
    assert u.x == t.x + v.x;
    assert u.y == t.y + v.y;
    assert u.z == t.z + v.z;
    assert AddReading(Some(t), Some(v)) == Some(Vec3(t.x + v.x, t.y + v.y, t.z + v.z));
  }

  lemma Cancel(k: real, a: real)
    requires k > 0.0
    ensures k * a / k == a
  {
  }

  lemma {:induction false} TotalOfConstant(readings: seq<Option<Vec3>>, v: Vec3)
    requires forall i :: 0 <= i < |readings| ==> readings[i] == Some(v)
    ensures Total(readings) == Some(Times(|readings|, v))
  {
    if |readings| > 0 {
      var init := readings[..|readings| - 1];
      assert forall i :: 0 <= i < |init| ==> init[i] == readings[i];
      TotalOfConstant(init, v);
      AddOneMore(|init|, v);
    }
  }

  /** The mean of a constant reading is that reading, however many samples there were. */
  lemma MeanOfConstant(readings: seq<Option<Vec3>>, v: Vec3)
    requires |readings| > 0
    requires forall i :: 0 <= i < |readings| ==> readings[i] == Some(v)
    ensures Mean(readings) == Some(v)
  {
    TotalOfConstant(readings, v);
    var n := |readings|;
    var t := Times(n, v);
    Cancel(n as real, v.x);
    Cancel(n as real, v.y);
    Cancel(n as real, v.z);
    assert t.x / n as real == v.x;
    assert t.y / n as real == v.y;
    assert t.z / n as real == v.z;
    assert Divide(Some(t), n) == Some(Vec3(t.x / n as real, t.y / n as real, t.z / n as real));
  }

  lemma {:induction false} TotalWithNaN(readings: seq<Option<Vec3>>, i: nat)
    requires i < |readings| && readings[i] == None
    ensures Total(readings) == None
  {
    if i < |readings| - 1 {
      TotalWithNaN(readings[..|readings| - 1], i);
    }
  }

  /** One NaN reading makes every mean NaN, so a calibration that saw it stores NaN drifts. */
  lemma NaNReadingPoisonsMean(readings: seq<Option<Vec3>>, i: nat)
    requires i < |readings| && readings[i] == None
    ensures Mean(readings) == None
  {
    TotalWithNaN(readings, i);
  }

  /** A pass on which the status register announces gyroscope data and the output registers hold `raw`. */
  predicate Stationary(t: Tick, raw: Raw3) {
    && STATUS_REG in t
    && (t[STATUS_REG] as int / 2) % 2 == 1
    && forall k :: 0 <= k < 6 ==> Offset(OUTX_L_G, k) in t && t[Offset(OUTX_L_G, k)] == Raw3Bytes(raw)[k]
  }

  lemma StationaryPoll(d: Driver, bus: Bus, t: Tick, raw: Raw3)
    requires d.binding.Spi? || bus.Reliable()
    requires Stationary(t, raw)
    ensures Poll(d, bus, t).ready == [true]
    ensures Poll(d, bus, t).readings == [Some(Scale3(raw, GYRO_FULL_SCALE))]
  {
    var now := bus.Apply(t);
    var status := GyroscopeAvailable(d, now);
    assert ReadRegister(d.binding, now, STATUS_REG).value == t[STATUS_REG] as int;
    assert status.value == 1;
    var gyro := ReadGyroscope(d, status.bus);
    assert status.bus.regs == now.regs;
    assert status.bus.Block(OUTX_L_G, 6) == Raw3Bytes(raw);
    Raw3RoundTrip(raw);
    assert gyro.code == 1;
    assert Counts(gyro.value.value, GYRO_FULL_SCALE) == AsVec3(raw);
  }

  lemma StationaryTail(window: seq<Tick>, raw: Raw3)
    requires |window| > 0
    requires forall i :: 0 <= i < |window| ==> Stationary(window[i], raw)
    ensures forall i :: 0 <= i < |window[1..]| ==> Stationary(window[1..][i], raw)
  {
    forall i | 0 <= i < |window[1..]|
      ensures Stationary(window[1..][i], raw)
    {
      assert window[1..][i] == window[i + 1];
    }
  }

  /** Every element of `s` is `v`. */
  predicate AllAre(s: seq<Option<Vec3>>, v: Option<Vec3>) {
    forall i :: 0 <= i < |s| ==> s[i] == v
  }

  lemma ConsAll(rest: seq<Option<Vec3>>, v: Option<Vec3>)
    requires AllAre(rest, v)
    ensures AllAre([v] + rest, v)
  {
    var all := [v] + rest;
    forall i | 0 <= i < |all|
      ensures all[i] == v
    {
      if i > 0 {
        assert all[i] == rest[i - 1];
      }
    }
  }

  /** If every pass finds the sensor reporting `raw`, every pass reads `raw` scaled. */
  lemma {:induction false} StationaryWindow(d: Driver, bus: Bus, window: seq<Tick>, raw: Raw3)
    requires d.binding.Spi? || bus.Reliable()
    requires forall i :: 0 <= i < |window| ==> Stationary(window[i], raw)
    ensures |Window(d, bus, window).readings| == |window|
    ensures AllAre(Window(d, bus, window).readings, Some(Scale3(raw, GYRO_FULL_SCALE)))
    decreases |window|
  {
    if |window| > 0 {
      var first := Poll(d, bus, window[0]);
      StationaryPoll(d, bus, window[0], raw);
      StationaryTail(window, raw);
      StationaryWindow(d, first.bus, window[1..], raw);
      WindowCons(d, bus, window);
      ConsAll(Window(d, first.bus, window[1..]).readings, Some(Scale3(raw, GYRO_FULL_SCALE)));
    }
  }

  /**
   * A sensor at rest that reports the same raw rate on every pass yields a
   * drift equal to that rate in degrees per second, whatever the number of
   * passes.
   */
  lemma StationaryCalibration(d: Driver, bus: Bus, window: seq<Tick>, raw: Raw3)
    requires d.binding.Spi? || bus.Reliable()
    requires |window| > 0
    requires forall i :: 0 <= i < |window| ==> Stationary(window[i], raw)
    ensures Calibrate(d, bus, window).ok
    ensures Calibrate(d, bus, window).driver.drift == Some(Scale3(raw, GYRO_FULL_SCALE))
  {
    StationaryWindow(d, bus, window, raw);
    MeanOfConstant(Window(d, bus, window).readings, Scale3(raw, GYRO_FULL_SCALE));
  }
}
