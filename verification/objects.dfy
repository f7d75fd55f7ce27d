/** Object detection on a filtered sweep (`findSmallestObject`): the IR
    channel is cut into objects, each object's width is estimated, and the
    midpoint angle of the narrowest object is returned. */
module Objects {
  import opened Ints
  import opened Outcomes
  import opened Scan

  /** `NO_OBJECT_DISTANCE`: IR readings at or beyond this many cm are background. */
  const NO_OBJECT_DISTANCE: byte := 50
  /** `TOLERANCE`: neighbouring IR readings closer than this belong together. */
  const TOLERANCE: byte := 3
  /** `MAX_OBJECTS`: capacity of the start and end angle arrays. */
  const MAX_OBJECTS: nat := 15
  /** The value returned when no object qualifies. */
  const NO_OBJECT: byte := 255

  /** `calculateObjectWidth(medianDistance, startAngle, endAngle)`, a
      floating-point chord length; the model leaves it uninterpreted. */
  type WidthFn = (byte, byte, byte) -> byte

  /** The IR channel of a sweep. */
  function IrChannel(v: seq<Sample>): (ir: seq<byte>)
    ensures |ir| == |v| && forall k :: 0 <= k < |v| ==> ir[k] == v[k].ir
  {
    seq(|v|, k requires 0 <= k < |v| => v[k].ir)
  }

  /** The segmentation loop visits indices 0 .. N - 2, each with its successor. */
  function LastIndex(ir: seq<byte>): nat
  {
    if |ir| == 0 then 0 else |ir| - 1
  }

  /** Index i starts an object when nothing is being tracked: its reading
      is in range and its successor is within tolerance of it. */
  predicate Opens(ir: seq<byte>, i: nat)
    requires i + 1 < |ir|
  {
    ir[i] < NO_OBJECT_DISTANCE && IsWithinTolerance(ir[i], ir[i + 1], TOLERANCE)
  }

  /** Index i ends the tracked object: its reading is in range and its
      successor is not. */
  predicate Closes(ir: seq<byte>, i: nat)
    requires i + 1 < |ir|
  {
    ir[i] < NO_OBJECT_DISTANCE && ir[i + 1] >= NO_OBJECT_DISTANCE
  }

  /** A detected object: the sample indices where it opened and closed. */
  datatype Span = Span(open: nat, close: nat)

  /** The objects closed so far, and the opening index of the one being
      tracked, if any (`lookingAtObject`). */
  datatype Segmentation = Segmentation(closed: seq<Span>, dangling: Option<nat>)

  /** Objects opened: those closed plus the one being tracked. */
  function OpenedCount(seg: Segmentation): nat
  {
    |seg.closed| + if seg.dangling.Some? then 1 else 0
  }

  /** Opening a sixteenth object writes past `objectStartAngles`. */
  predicate Overflows(seg: Segmentation)
  {
    OpenedCount(seg) > MAX_OBJECTS
  }

  predicate NoOpenIn(ir: seq<byte>, lo: int, hi: int)
    requires hi <= LastIndex(ir)
  {
    forall x: nat :: lo <= x < hi ==> !Opens(ir, x)
  }

  predicate NoCloseIn(ir: seq<byte>, lo: int, hi: int)
    requires hi <= LastIndex(ir)
  {
    forall x: nat :: lo <= x < hi ==> !Closes(ir, x)
  }

  /** Where the search for object k's opening starts: just past the close
      of object k - 1. */
  function GapStart(closed: seq<Span>, k: nat): nat
    requires k <= |closed|
  {
    if k == 0 then 0 else closed[k - 1].close + 1
  }

  /** Object k opened at the first opening index past the previous close,
      and closed at the first closing index past its opening, before n. */
  ghost predicate SpanOk(ir: seq<byte>, closed: seq<Span>, k: nat, n: nat)
    requires k < |closed| && n <= LastIndex(ir)
  {
    && GapStart(closed, k) <= closed[k].open < closed[k].close < n
    && Opens(ir, closed[k].open)
    && Closes(ir, closed[k].close)
    && NoOpenIn(ir, GapStart(closed, k), closed[k].open)
    && NoCloseIn(ir, closed[k].open + 1, closed[k].close)
  }

  /** Past the last close, before n: either no opening index at all, or
      the tracked object opened at the first one and no closing index
      followed it. */
  ghost predicate TrackOk(ir: seq<byte>, seg: Segmentation, n: nat)
    requires n <= LastIndex(ir)
  {
    var g := GapStart(seg.closed, |seg.closed|);
    && g <= n
    && match seg.dangling
       case None => NoOpenIn(ir, g, n)
       case Some(o) => g <= o < n && Opens(ir, o) && NoOpenIn(ir, g, o) && NoCloseIn(ir, o + 1, n)
  }

  /** `seg` is what the loop holds after visiting indices 0 .. n - 1. */
  ghost predicate Segmented(ir: seq<byte>, n: nat, seg: Segmentation)
    requires n <= LastIndex(ir)
  {
    && (forall k :: 0 <= k < |seg.closed| ==> SpanOk(ir, seg.closed, k, n))
    && TrackOk(ir, seg, n)
  }

  /** One iteration of the segmentation loop at index i. The open test is
      tried first; the close test only when it did not apply. */
  function SegmentStep(ir: seq<byte>, i: nat, seg: Segmentation): Segmentation
    requires i + 1 < |ir|
  {
    if seg.dangling.None? && Opens(ir, i) then Segmentation(seg.closed, Some(i))
    else if seg.dangling.Some? && Closes(ir, i) then Segmentation(seg.closed + [Span(seg.dangling.value, i)], None)
    else seg
  }

  /** A closed object stays correctly recorded when more objects are
      appended after it and more indices are visited. */
  lemma SpanOkGrows(ir: seq<byte>, closed: seq<Span>, closed': seq<Span>, k: nat, n: nat, n': nat)
    requires k < |closed| <= |closed'| && closed'[..|closed|] == closed
    requires n <= n' <= LastIndex(ir)
    requires SpanOk(ir, closed, k, n)
    ensures SpanOk(ir, closed', k, n')
  {
    assert closed'[k] == closed[k];
    if k > 0 {
      assert closed'[k - 1] == closed[k - 1];
    }
  }

  /** One step keeps the characterisation, one index further on. */
  lemma SegmentStepKeeps(ir: seq<byte>, i: nat, seg: Segmentation)
    requires i + 1 < |ir| && Segmented(ir, i, seg)
    ensures Segmented(ir, i + 1, SegmentStep(ir, i, seg))
  {
    var seg' := SegmentStep(ir, i, seg);
    var closed, closed' := seg.closed, seg'.closed;
    var g := GapStart(closed, |closed|);
    assert closed'[..|closed|] == closed;
    forall k {:trigger SpanOk(ir, closed', k, i + 1)} | 0 <= k < |closed|
      ensures SpanOk(ir, closed', k, i + 1)
    {
      SpanOkGrows(ir, closed, closed', k, i, i + 1);
    }
    if seg.dangling.None? && Opens(ir, i) {
      assert TrackOk(ir, seg', i + 1);
    } else if seg.dangling.Some? && Closes(ir, i) {
      var o := seg.dangling.value;
      var k := |closed|;
      assert closed'[k] == Span(o, i);
      assert GapStart(closed', k) == g by {
        if k > 0 {
          assert closed'[k - 1] == closed[k - 1];
        }
      }
      assert SpanOk(ir, closed', k, i + 1);
      assert GapStart(closed', k + 1) == i + 1;
      assert TrackOk(ir, seg', i + 1);
    } else {
      assert seg' == seg;
      assert TrackOk(ir, seg', i + 1);
    }
  }

  /** The segmentation loop from index i on. */
  function SegmentFrom(ir: seq<byte>, i: nat, seg: Segmentation): (r: Segmentation)
    requires i <= LastIndex(ir)
    ensures OpenedCount(r) >= OpenedCount(seg)
    decreases LastIndex(ir) - i
  {
    if i == LastIndex(ir) then seg else SegmentFrom(ir, i + 1, SegmentStep(ir, i, seg))
  }

  /** Running the loop to the end from a characterised state yields the
      characterised result. */
  lemma {:induction false} SegmentFromKeeps(ir: seq<byte>, i: nat, seg: Segmentation)
    requires i <= LastIndex(ir) && Segmented(ir, i, seg)
    ensures Segmented(ir, LastIndex(ir), SegmentFrom(ir, i, seg))
    decreases LastIndex(ir) - i
  {
    if i < LastIndex(ir) {
      SegmentStepKeeps(ir, i, seg);
      SegmentFromKeeps(ir, i + 1, SegmentStep(ir, i, seg));
    }
  }

  /** The first loop of `findSmallestObject`, with unbounded arrays. */
  function Segment(ir: seq<byte>): (seg: Segmentation)
    ensures Segmented(ir, LastIndex(ir), seg)
    ensures forall k :: 0 <= k < |seg.closed| ==> seg.closed[k].open < seg.closed[k].close < LastIndex(ir)
  {
    var seg := SegmentFrom(ir, 0, Segmentation([], None));
    SegmentFromKeeps(ir, 0, Segmentation([], None));
    forall k | 0 <= k < |seg.closed|
      ensures seg.closed[k].open < seg.closed[k].close < LastIndex(ir)
    {
      assert SpanOk(ir, seg.closed, k, LastIndex(ir));
    }
    seg
  }

  /** Every sample k of the sweep lies at 2k degrees, as `scanField`
      records it for the standard sweep; the width step relies on it to
      turn an angle back into an index. */
  predicate StandardAngles(v: seq<Sample>)
  {
    forall k :: 0 <= k < |v| ==> v[k].angle == 2 * k
  }

  /** The object's midpoint angle, `(start + end) / 2` computed in uint16_t. */
  function Midpoint(v: seq<Sample>, s: Span): byte
    requires s.open < |v| && s.close < |v|
  {
    (v[s.open].angle + v[s.close].angle) / 2
  }

  /** The object's estimated width: the ping reading at the sample of the
      mid angle, `(start + end) / 4`, together with both angles. */
  function Width(v: seq<Sample>, s: Span, width: WidthFn): byte
    requires StandardAngles(v) && s.open < |v| && s.close < |v|
  {
    var a, b := v[s.open].angle, v[s.close].angle;
    width(v[(a + b) / 4].ping, a, b)
  }

  /** Entry k of `ws` is the first occurrence of its smallest value. */
  ghost predicate IsFirstMin(ws: seq<byte>, k: int)
  {
    && 0 <= k < |ws|
    && (forall j :: 0 <= j < k ==> ws[j] > ws[k])
    && (forall j :: k < j < |ws| ==> ws[j] >= ws[k])
  }

  /** The second loop from entry i on, with the best width and its
      midpoint so far. Only a strictly smaller width replaces the best. */
  function SelectFrom(ws: seq<byte>, mids: seq<byte>, i: nat, bestWidth: byte, bestMid: byte): (r: byte)
    requires |ws| == |mids| && i <= |ws|
    decreases |ws| - i
  {
    if i == |ws| then bestMid
    else if ws[i] < bestWidth then SelectFrom(ws, mids, i + 1, ws[i], mids[i])
    else SelectFrom(ws, mids, i + 1, bestWidth, bestMid)
  }

  /** The selection, starting from width 255 and midpoint 255: the
      midpoint of the first narrowest object, or 255 when no width is
      below 255. */
  function Select(ws: seq<byte>, mids: seq<byte>): (r: byte)
    requires |ws| == |mids|
    ensures r == NO_OBJECT || r in mids
  {
    SelectFromIsCandidate(ws, mids, 0, NO_OBJECT, NO_OBJECT);
    assert mids[0..] == mids;
    SelectFrom(ws, mids, 0, NO_OBJECT, NO_OBJECT)
  }

  /** The selection is 255 when every width is 255, and otherwise the
      midpoint of the first narrowest object. */
  lemma SelectIsFirstNarrowest(ws: seq<byte>, mids: seq<byte>)
    requires |ws| == |mids|
    ensures (forall k :: 0 <= k < |ws| ==> ws[k] == NO_OBJECT) ==> Select(ws, mids) == NO_OBJECT
    ensures forall k :: IsFirstMin(ws, k) && ws[k] < NO_OBJECT ==> Select(ws, mids) == mids[k]
  {
    SelectFromAllBest(ws, mids, 0, NO_OBJECT, NO_OBJECT);
  }

  /** What the selection loop yields from entry i: the midpoint of the
      first entry past i with the smallest width if that width beats the
      best so far, and the best so far otherwise. */
  lemma {:induction false} SelectFromAllBest(ws: seq<byte>, mids: seq<byte>, i: nat, bestWidth: byte, bestMid: byte)
    requires |ws| == |mids| && i <= |ws|
    ensures (forall k :: i <= k < |ws| ==> ws[k] >= bestWidth) ==>
              SelectFrom(ws, mids, i, bestWidth, bestMid) == bestMid
    ensures forall k :: i <= k < |ws| && ws[k] < bestWidth
                        && (forall j :: i <= j < k ==> ws[j] > ws[k])
                        && (forall j :: k < j < |ws| ==> ws[j] >= ws[k]) ==>
              SelectFrom(ws, mids, i, bestWidth, bestMid) == mids[k]
    decreases |ws| - i
  {
    if i < |ws| {
      if ws[i] < bestWidth {
        SelectFromAllBest(ws, mids, i + 1, ws[i], mids[i]);
      } else {
        SelectFromAllBest(ws, mids, i + 1, bestWidth, bestMid);
      }
    }
  }

  /** The selection yields one of the midpoints, or 255. */
  lemma {:induction false} SelectFromIsCandidate(ws: seq<byte>, mids: seq<byte>, i: nat, bestWidth: byte, bestMid: byte)
    requires |ws| == |mids| && i <= |ws|
    ensures var r := SelectFrom(ws, mids, i, bestWidth, bestMid); r == bestMid || r in mids[i..]
    decreases |ws| - i
  {
    if i < |ws| {
      if ws[i] < bestWidth {
        SelectFromIsCandidate(ws, mids, i + 1, ws[i], mids[i]);
      } else {
        SelectFromIsCandidate(ws, mids, i + 1, bestWidth, bestMid);
      }
    }
  }

  /** Widths and midpoints of the closed objects, in order. */
  function Widths(v: seq<Sample>, closed: seq<Span>, width: WidthFn): (ws: seq<byte>)
    requires StandardAngles(v)
    requires forall k :: 0 <= k < |closed| ==> closed[k].open < |v| && closed[k].close < |v|
    ensures |ws| == |closed|
  {
    seq(|closed|, k requires 0 <= k < |closed| => Width(v, closed[k], width))
  }

  function Midpoints(v: seq<Sample>, closed: seq<Span>): (mids: seq<byte>)
    requires forall k :: 0 <= k < |closed| ==> closed[k].open < |v| && closed[k].close < |v|
    ensures |mids| == |closed|
  {
    seq(|closed|, k requires 0 <= k < |closed| => Midpoint(v, closed[k]))
  }

  /** `findSmallestObject`: the midpoint angle of the first narrowest
      closed object, 255 if none has a width below 255, and the overflow
      hazard if a sixteenth object was opened. An object still open at the
      end of the sweep is never counted. */
  function SmallestObject(v: seq<Sample>, width: WidthFn): (r: Result<byte, Hazard>)
    requires StandardAngles(v)
    ensures r.Failure? <==> Overflows(Segment(IrChannel(v)))
    ensures r.Failure? ==> r.error == ObjectTableOverflow
  {
    var seg := Segment(IrChannel(v));
    if Overflows(seg) then Failure(ObjectTableOverflow)
    else
      Success(Select(Widths(v, seg.closed, width), Midpoints(v, seg.closed)))
  }

  /** Without overflow, the result is 255 or the midpoint of a closed
      object: the first narrowest one, and 255 when no width is below 255. */
  lemma SmallestObjectIsFirstNarrowest(v: seq<Sample>, width: WidthFn)
    requires StandardAngles(v)
    ensures var r := SmallestObject(v, width);
            r.Success? ==>
              var closed := Segment(IrChannel(v)).closed;
              var ws := Widths(v, closed, width);
              && (r.value == NO_OBJECT || r.value in Midpoints(v, closed))
              && (forall k :: IsFirstMin(ws, k) && ws[k] < NO_OBJECT ==> r.value == Midpoint(v, closed[k]))
              && ((forall k :: 0 <= k < |ws| ==> ws[k] == NO_OBJECT) ==> r.value == NO_OBJECT)
  {
    var seg := Segment(IrChannel(v));
    SelectIsFirstNarrowest(Widths(v, seg.closed, width), Midpoints(v, seg.closed));
  }

  /** A found object's midpoint angle lies strictly inside the sweep, so
      halving it gives the index of a sample; only the 255 sentinel
      indexes past the end. */
  lemma FoundAngleInSweep(v: seq<Sample>, width: WidthFn)
    requires StandardAngles(v)
    ensures var r := SmallestObject(v, width);
            r.Success? && r.value != NO_OBJECT ==> r.value as int / 2 < |v|
  {
    var seg := Segment(IrChannel(v));
    if !Overflows(seg) {
      var mids := Midpoints(v, seg.closed);
      var r := Select(Widths(v, seg.closed, width), mids);
      if r != NO_OBJECT {
        var k :| 0 <= k < |mids| && mids[k] == r;
        assert r == seg.closed[k].open + seg.closed[k].close;
      }
    }
  }

  /** The first `count` slots of the start and end angle arrays hold the
      angles of the closed objects, in order. */
  predicate Recorded(v: seq<Sample>, closed: seq<Span>, starts: seq<byte>, ends: seq<byte>, count: nat)
  {
    && count == |closed| <= |starts| && count <= |ends|
    && forall k :: 0 <= k < count ==>
         && closed[k].open < |v| && closed[k].close < |v|
         && starts[k] == v[closed[k].open].angle && ends[k] == v[closed[k].close].angle
  }

  /** The first loop of `findSmallestObject`: fills the 15-slot start and
      end angle arrays. Where the C code would write a sixteenth start
      angle past the array the method stops and reports the overflow. */
  method RecordObjects(v: seq<Sample>, numValues: byte) returns (starts: seq<byte>, ends: seq<byte>, count: nat, overflow: bool)
    requires numValues as int == |v|
    ensures overflow <==> Overflows(Segment(IrChannel(v)))
    ensures !overflow ==> Recorded(v, Segment(IrChannel(v)).closed, starts, ends, count)
  {
    ghost var ir := IrChannel(v);
    starts, ends := seq(MAX_OBJECTS, _ => 0), seq(MAX_OBJECTS, _ => 0);
    count, overflow := 0, false;
    var looking := false;
    ghost var seg := Segmentation([], None);

    var index := 0;
    while index < numValues as int - 1
      invariant 0 <= index <= LastIndex(ir)
      invariant SegmentFrom(ir, index, seg) == Segment(ir)
      invariant |starts| == |ends| == MAX_OBJECTS
      invariant Recorded(v, seg.closed, starts, ends, count)
      invariant looking <==> seg.dangling.Some?
      invariant looking ==> count < MAX_OBJECTS && seg.dangling.value < |v|
                            && starts[count] == v[seg.dangling.value].angle
    {
      var currentDistance, nextDistance := v[index].ir, v[index + 1].ir;
      ghost var seg' := SegmentStep(ir, index, seg);
      if !looking && currentDistance < NO_OBJECT_DISTANCE && IsWithinTolerance(currentDistance, nextDistance, TOLERANCE) {
        if count == MAX_OBJECTS {
          assert OpenedCount(seg') > MAX_OBJECTS;
          assert Segment(ir) == SegmentFrom(ir, index + 1, seg');
          return starts, ends, count, true;
        }
        starts := starts[count := v[index].angle];
        looking := true;
      } else if looking && currentDistance < NO_OBJECT_DISTANCE && nextDistance >= NO_OBJECT_DISTANCE {
        ends := ends[count := v[index].angle];
        looking := false;
        count := count + 1;
      }
      seg := seg';
      index := index + 1;
    }
    assert seg == Segment(ir);
    assert OpenedCount(seg) <= MAX_OBJECTS;
  }

  /** The second loop of `findSmallestObject`: scans the recorded objects
      for the first strictly narrowest one. */
  method NarrowestObject(v: seq<Sample>, closed: seq<Span>, starts: seq<byte>, ends: seq<byte>, count: nat, width: WidthFn)
    returns (smallestDegree: byte)
    requires StandardAngles(v) && Recorded(v, closed, starts, ends, count)
    ensures smallestDegree == Select(Widths(v, closed, width), Midpoints(v, closed))
  {
    ghost var ws, mids := Widths(v, closed, width), Midpoints(v, closed);
    var smallestWidth: byte := NO_OBJECT;
    smallestDegree := NO_OBJECT;
    var index := 0;
    while index < count
      invariant 0 <= index <= count
      invariant SelectFrom(ws, mids, index, smallestWidth, smallestDegree) == SelectFrom(ws, mids, 0, NO_OBJECT, NO_OBJECT)
    {
      var currentStartAngle, currentEndAngle := starts[index], ends[index];
      var angleSum: int := currentStartAngle as int + currentEndAngle as int;
      var currentDistance := v[angleSum / 4].ping;
      var currentWidth := width(currentDistance, currentStartAngle, currentEndAngle);
      assert ws[index] == Width(v, closed[index], width) == currentWidth;
      assert mids[index] == Midpoint(v, closed[index]) == angleSum / 2;
      if currentWidth < smallestWidth {
        smallestWidth := currentWidth;
        smallestDegree := angleSum / 2;
      }
      index := index + 1;
    }
  }

  /** `findSmallestObject` as written: both loops, over fixed 15-slot
      arrays, agree with the declarative selection. */
  method FindSmallestObject(v: seq<Sample>, numValues: byte, width: WidthFn) returns (r: Result<byte, Hazard>)
    requires numValues as int == |v| && StandardAngles(v)
    ensures r == SmallestObject(v, width)
  {
    var starts, ends, count, overflow := RecordObjects(v, numValues);
    if overflow {
      return Failure(ObjectTableOverflow);
    }
    var degree := NarrowestObject(v, Segment(IrChannel(v)).closed, starts, ends, count, width);
    return Success(degree);
  }
}
