/** One sweep of the servo-mounted sensors (`scanAngle`, `scanField`).

    The sensors are read once per sample, in sweep order; the model takes
    those readings as two sequences indexed by sample number: the
    ultrasonic distance already converted to uint8_t, and the raw ADC value
    of the IR sensor. */
module Scan {
  import opened Ints
  import IrLookup

  /** `SCAN_START`, `SCAN_END`, `SCAN_INCREMENT`, `NUM_SCANS` */
  const SCAN_START: byte := 0
  const SCAN_END: byte := 180
  const SCAN_INCREMENT: byte := 2
  const NUM_SCANS: nat := 91

  /** Ultrasonic readings above this many cm are clamped to it. */
  const PING_CLAMP: byte := 250

  /** `scanVector`: the servo angle and both distances, in cm. */
  datatype Sample = Sample(angle: byte, ping: byte, ir: byte)

  /** `scanAngle`: one sample at `angle`. The IR distance is what the
      firmware's table lookup returns, an entry bracketing the reading but
      not always the nearest one. */
  function ScanAngle(angle: byte, rawPing: byte, adc: uint16): (r: Sample)
    ensures r.angle == angle
    ensures r.ping <= PING_CLAMP
    ensures r.ping == rawPing <==> rawPing <= PING_CLAMP
    ensures rawPing > PING_CLAMP ==> r.ping == PING_CLAMP
    ensures r.ir == IrLookup.IrDistance(adc)
    ensures IrLookup.Brackets(IrLookup.IR_TABLE, adc, IrLookup.IndexOf(r.ir))
    ensures 10 <= r.ir <= 50 && r.ir % 2 == 0
  {
    var d := IrLookup.IrDistance(adc);
    IrLookup.TableDistancesAreEven(d);
    Sample(angle, if rawPing > PING_CLAMP then PING_CLAMP else rawPing, d)
  }

  /** Number of iterations of `while (angle <= endAngle)` when the angle
      never wraps. */
  function SweepCount(start: int, end: int, inc: int): nat
    requires 1 <= inc
    decreases end - start + inc
  {
    if start > end then 0 else 1 + SweepCount(start + inc, end, inc)
  }

  /** The angle of sample k of a sweep: `inc` added k times to `start`. */
  function AngleAt(start: int, inc: int, k: nat): int
  {
    if k == 0 then start else AngleAt(start, inc, k - 1) + inc
  }

  /** The angles of a sweep: sample k at `AngleAt(start, inc, k)`, all within
      `end`, and the next angle past `end`. */
  predicate SweepAngles(r: seq<Sample>, start: int, end: int, inc: int)
    requires 1 <= inc
  {
    && |r| == SweepCount(start, end, inc)
    && AngleAt(start, inc, |r|) > end
    && (forall k :: 0 <= k < |r| ==> r[k].angle == AngleAt(start, inc, k) <= end)
  }

  /** Adding one step to the start shifts the sweep by one sample. */
  lemma {:induction false} AngleShift(start: int, inc: int, k: nat)
    ensures AngleAt(start + inc, inc, k) == AngleAt(start, inc, k + 1)
  {
    if k > 0 {
      AngleShift(start, inc, k - 1);
    }
  }

  /** `scanField`: one sample per angle of the sweep, sample k taken from
      the k-th pair of readings. The angle is a uint8_t; `end + inc <= 255`
      keeps `angle += inc` from wrapping past `end`, without which the loop
      would never end, and `inc >= 1` is needed for the same reason. */
  function ScanField(start: byte, end: byte, inc: byte, pings: seq<byte>, adcs: seq<uint16>): (r: seq<Sample>)
    requires 1 <= inc && end + inc <= 0xFF
    requires |pings| >= SweepCount(start, end, inc) && |adcs| >= SweepCount(start, end, inc)
    ensures |r| == SweepCount(start, end, inc)
    ensures forall k {:trigger r[k]} :: 0 <= k < |r| ==> r[k] == ScanAngle(r[k].angle, pings[k], adcs[k])
    decreases end + inc - start
  {
    if start > end then []
    else
      var next := ToByte(start + inc);
      assert next == start + inc;
      [ScanAngle(start, pings[0], adcs[0])] + ScanField(next, end, inc, pings[1..], adcs[1..])
  }

  /** The samples of `scanField` are taken exactly at the angles of the sweep. */
  lemma {:induction false} ScanFieldAngles(start: byte, end: byte, inc: byte, pings: seq<byte>, adcs: seq<uint16>)
    requires 1 <= inc && end + inc <= 0xFF
    requires |pings| >= SweepCount(start, end, inc) && |adcs| >= SweepCount(start, end, inc)
    ensures SweepAngles(ScanField(start, end, inc, pings, adcs), start, end, inc)
    decreases end + inc - start
  {
    if start <= end {
      var next := ToByte(start + inc);
      assert next == start + inc;
      ScanFieldAngles(next, end, inc, pings[1..], adcs[1..]);
      var rest := ScanField(next, end, inc, pings[1..], adcs[1..]);
      var r := ScanField(start, end, inc, pings, adcs);
      assert r == [ScanAngle(start, pings[0], adcs[0])] + rest;
      assert |r| == SweepCount(start, end, inc);
      AngleShift(start, inc, |rest|);
      assert AngleAt(start, inc, |r|) > end;
      forall k | 0 <= k < |r|
        ensures r[k].angle == AngleAt(start, inc, k) <= end
      {
        if k > 0 {
          AngleShift(start, inc, k - 1);
          assert r[k] == rest[k - 1];
        }
      }
    }
  }

  /** Sample k of a sweep from 0 in steps of 2 is at 2k degrees. */
  lemma {:induction false} EvenAngles(k: nat)
    ensures AngleAt(SCAN_START, SCAN_INCREMENT, k) == 2 * k
  {
    if k > 0 {
      EvenAngles(k - 1);
    }
  }

  /** The sweep the robot performs: `NUM_SCANS` samples, sample k at 2k degrees. */
  lemma StandardSweep(r: seq<Sample>)
    requires SweepAngles(r, SCAN_START, SCAN_END, SCAN_INCREMENT)
    ensures |r| == NUM_SCANS
    ensures forall k :: 0 <= k < |r| ==> r[k].angle == 2 * k
  {
    SweepCountIs(0);
    forall k | 0 <= k < |r|
      ensures r[k].angle == 2 * k
    {
      EvenAngles(k);
    }
  }

  /** From an even angle a, the standard sweep takes (182 - a) / 2 samples. */
  lemma {:induction false} SweepCountIs(a: int)
    requires 0 <= a <= 182 && a % 2 == 0
    ensures SweepCount(a, SCAN_END, SCAN_INCREMENT) == (182 - a) / 2
    decreases 182 - a
  {
    if a <= 180 {
      SweepCountIs(a + 2);
    }
  }

  /** What the sensors report: the ultrasonic distance converted to uint8_t
      and the raw IR ADC value at each sample of a sweep, by sample number. */
  datatype Sensors = Sensors(ping: nat -> byte, adc: nat -> uint16)

  /** The first n readings of a sensor. */
  function Prefix<T>(f: nat -> T, n: nat): (r: seq<T>)
    ensures |r| == n && forall k :: 0 <= k < n ==> r[k] == f(k)
  {
    seq(n, k requires 0 <= k => f(k))
  }

  /** The sweep the robot performs: sample k taken at 2k degrees from the
      k-th readings. */
  function StandardScan(sensors: Sensors): (r: seq<Sample>)
    ensures |r| == NUM_SCANS
    ensures forall k :: 0 <= k < |r| ==> r[k].angle == 2 * k
  {
    var r := seq(NUM_SCANS, k requires 0 <= k < NUM_SCANS => ScanAngle(2 * k, sensors.ping(k), sensors.adc(k)));
    assert forall k :: 0 <= k < |r| ==> r[k].angle == 2 * k by {
      forall k | 0 <= k < |r|
        ensures r[k].angle == 2 * k
      {
        assert r[k] == ScanAngle(2 * k, sensors.ping(k), sensors.adc(k));
      }
    }
    r
  }

  /** The standard sweep is what `scanField(SCAN_START, SCAN_END,
      SCAN_INCREMENT, ...)` records. */
  lemma StandardScanIsScanField(sensors: Sensors)
    ensures SweepCount(SCAN_START, SCAN_END, SCAN_INCREMENT) == NUM_SCANS
    ensures StandardScan(sensors)
            == ScanField(SCAN_START, SCAN_END, SCAN_INCREMENT, Prefix(sensors.ping, NUM_SCANS), Prefix(sensors.adc, NUM_SCANS))
  {
    SweepCountIs(0);
    var pings, adcs := Prefix(sensors.ping, NUM_SCANS), Prefix(sensors.adc, NUM_SCANS);
    var r := ScanField(SCAN_START, SCAN_END, SCAN_INCREMENT, pings, adcs);
    ScanFieldAngles(SCAN_START, SCAN_END, SCAN_INCREMENT, pings, adcs);
    StandardSweep(r);
    SamplesAtEvenAngles(r, sensors);
  }

  /** A sweep whose sample k is taken at 2k degrees from the k-th readings
      is the standard sweep. */
  lemma SamplesAtEvenAngles(r: seq<Sample>, sensors: Sensors)
    requires |r| == NUM_SCANS
    requires forall k :: 0 <= k < |r| ==> r[k].angle == 2 * k
    requires forall k {:trigger r[k]} :: 0 <= k < |r| ==>
               r[k] == ScanAngle(r[k].angle, Prefix(sensors.ping, NUM_SCANS)[k], Prefix(sensors.adc, NUM_SCANS)[k])
    ensures r == StandardScan(sensors)
  {
    var q := StandardScan(sensors);
    forall k | 0 <= k < NUM_SCANS
      ensures r[k] == q[k]
    {
      assert r[k] == ScanAngle(2 * k, sensors.ping(k), sensors.adc(k));
    }
  }
}
