/** The automatic mode of `main`: three checkpoints that wait for `h`
    (proceed) or `t` (manual mode), separated by the scan, the approach and
    the detour around an obstacle. The keys arrive one per event, together
    with what the sensors report while the step they start runs. */
module Controller {
  import opened Ints
  import opened Outcomes
  import opened Scan
  import opened Filter
  import opened Objects
  import opened Commands

  /** `CRASH_AVOIDANCE_OFFSET`: the robot stops this many cm short of the
      object. */
  const CRASH_AVOIDANCE_OFFSET: int := 10

  /** The detour after a bump: back off 5 cm, turn 90 degrees away from
      the bumper that was hit, drive 10 cm, turn back. */
  const DETOUR_DEGREES: int := 90
  const BACK_OFF_CM: int := 5
  const DETOUR_CM: int := 10

  /** Where the loop of `main` is waiting. The three checkpoints keep what
      the next phase needs; `Fault` is where the firmware would read or
      write outside an array, after which nothing is modelled. */
  datatype Mode =
    | AwaitScan
    | AwaitApproach(angle: byte, distance: byte)
    | AwaitDetour(degrees: int)
    | Manual
    | Fault(hazard: Hazard)
  {
    predicate IsCheckpoint() { AwaitScan? || AwaitApproach? || AwaitDetour? }
  }

  /** A key, the readings of a sweep the step may start, and the bumpers
      as they are after a drive the step may start. */
  datatype Event = Event(key: char, sensors: Sensors, bumpLeft: bool, bumpRight: bool)

  datatype Transition = Transition(next: Mode, actions: seq<Action>)

  /** The sweep after the rolling-average filter. */
  function SmoothedScan(sensors: Sensors): (v: seq<Sample>)
    ensures |v| == NUM_SCANS && StandardAngles(v)
  {
    Smoothed(StandardScan(sensors), BUFFER_SIZE)
  }

  /** STEP 1: scan, filter, find the narrowest object, point the servo at
      it and report the angle and the filtered distance there. */
  function ScanPhase(sensors: Sensors, width: WidthFn): (t: Transition)
    ensures t.next.Fault? || t.next.AwaitApproach?
  {
    var v := SmoothedScan(sensors);
    match SmallestObject(v, width)
    case Failure(h) => Transition(Fault(h), [Sweep(StandardScan(sensors))])
    case Success(a) =>
      if a as int / 2 >= NUM_SCANS then Transition(Fault(SentinelIndex), [Sweep(StandardScan(sensors)), MoveServo(a)])
      else
        var d := v[a / 2].ping;
        Transition(AwaitApproach(a, d), [Sweep(StandardScan(sensors)), MoveServo(a), Say(TargetReport(a, d))])
  }

  /** The scan ends in the overflow fault exactly when a sixteenth object
      was opened, and in the sentinel fault exactly when the search
      returns 255, i.e. no closed object measures narrower than 255 (in
      particular when none was found); otherwise the robot waits to
      approach the first narrowest object, at its filtered distance. */
  lemma ScanPhaseOutcome(sensors: Sensors, width: WidthFn)
    ensures var t, v := ScanPhase(sensors, width), SmoothedScan(sensors);
            && (t.next == Fault(ObjectTableOverflow) <==> Overflows(Segment(IrChannel(v))))
            && (t.next == Fault(SentinelIndex) <==> SmallestObject(v, width) == Success(NO_OBJECT))
            && (t.next.AwaitApproach? ==>
                  && SmallestObject(v, width) == Success(t.next.angle)
                  && t.next.distance == v[t.next.angle / 2].ping
                  && t.actions[|t.actions| - 1] == Say(TargetReport(t.next.angle, t.next.distance)))
  {
    FoundAngleInSweep(SmoothedScan(sensors), width);
  }

  /** STEP 3: turn towards the object and drive up to it; after a bump,
      report the detour (away from the left bumper if it was hit, else
      away from the right one) and wait; otherwise start over. */
  function ApproachPhase(angle: byte, distance: byte, bumpLeft: bool, bumpRight: bool): (t: Transition)
    ensures t.next.AwaitDetour? <==> bumpLeft || bumpRight
    ensures t.next.AwaitDetour? ==> t.next.degrees == (if bumpLeft then -DETOUR_DEGREES else DETOUR_DEGREES)
    ensures !t.next.AwaitDetour? ==> t.next == AwaitScan
    ensures |t.actions| == 3 && t.actions[..2] == [TurnDegrees(BOT_TURN_SPEED, 90 - angle), DrivePrecise(BOT_CRUISE_SPEED, distance - CRASH_AVOIDANCE_OFFSET)]
  {
    var drive := [TurnDegrees(BOT_TURN_SPEED, 90 - angle), DrivePrecise(BOT_CRUISE_SPEED, distance - CRASH_AVOIDANCE_OFFSET)];
    if bumpLeft || bumpRight then
      var degrees := if bumpLeft then -DETOUR_DEGREES else DETOUR_DEGREES;
      Transition(AwaitDetour(degrees), drive + [Say(DetourReport(degrees))])
    else
      Transition(AwaitScan, drive + [Say(Newline)])
  }

  /** STEP 5: back off, turn, pass the obstacle, turn back. */
  function DetourPhase(degrees: int): (t: Transition)
    ensures t.next == AwaitScan
  {
    Transition(AwaitScan, [DriveDistance(-BOT_CRUISE_SPEED, BACK_OFF_CM), TurnDegrees(BOT_TURN_SPEED, degrees),
                           DrivePrecise(BOT_CRUISE_SPEED, DETOUR_CM), TurnDegrees(BOT_TURN_SPEED, -degrees)])
  }

  /** The degrees turned by a run of actions, left positive. */
  function TotalTurn(actions: seq<Action>): int
  {
    if |actions| == 0 then 0
    else (if actions[0].TurnDegrees? then actions[0].degrees else 0) + TotalTurn(actions[1..])
  }

  /** Turning is additive over consecutive runs of actions. */
  lemma {:induction false} TotalTurnAppend(a: seq<Action>, b: seq<Action>)
    ensures TotalTurn(a + b) == TotalTurn(a) + TotalTurn(b)
  {
    if |a| == 0 {
      assert a + b == b;
    } else {
      assert (a + b)[0] == a[0];
      assert (a + b)[1..] == a[1..] + b;
      TotalTurnAppend(a[1..], b);
    }
  }

  /** A detour ends with the robot facing the way it faced before it: its
      first half turns by `degrees` and its second half turns back. */
  lemma DetourKeepsHeading(degrees: int)
    ensures TotalTurn(DetourPhase(degrees).actions) == 0
  {
    var a := DetourPhase(degrees).actions;
    var out, back := a[..2], a[2..];
    assert a == out + back;
    TotalTurnAppend(out, back);
    assert TotalTurn(out) == degrees by { assert out[1..][1..] == []; }
    assert TotalTurn(back) == -degrees by { assert back[1..][1..] == []; }
  }

  /** One event. At a checkpoint `t` enters manual mode, `h` runs the next
      phase and every other key is read and dropped. In manual mode `t`
      returns to the first checkpoint and every other key is a command. */
  function Step(m: Mode, e: Event, width: WidthFn): (t: Transition)
    ensures m.Fault? ==> t == Transition(m, [])
    ensures m.IsCheckpoint() && e.key == 't' ==> t == Transition(Manual, [Say(ToggledManual)])
    ensures m.IsCheckpoint() && e.key != 't' && e.key != 'h' ==> t == Transition(m, [])
    ensures m == Manual ==> (t.next == AwaitScan <==> e.key == 't') && (t.next == Manual <==> e.key != 't')
    ensures t.next.Fault? ==> m.Fault? || (m == AwaitScan && e.key == 'h')
  {
    match m
    case Fault(_) => Transition(m, [])
    case Manual =>
      var s := ManualKey(e.key, e.sensors);
      Transition(if s.leave then AwaitScan else Manual, s.actions)
    case _ =>
      if e.key == 't' then Transition(Manual, [Say(ToggledManual)])
      else if e.key != 'h' then Transition(m, [])
      else match m
        case AwaitScan => ScanPhase(e.sensors, width)
        case AwaitApproach(angle, distance) => ApproachPhase(angle, distance, e.bumpLeft, e.bumpRight)
        case AwaitDetour(degrees) => DetourPhase(degrees)
  }

  /** A run of events through any step function from mode m: the final
      mode and every action, in order. */
  function RunWith(step: (Mode, Event) -> Transition, m: Mode, events: seq<Event>): (t: Transition)
    decreases |events|
  {
    if |events| == 0 then Transition(m, [])
    else
      var first := step(m, events[0]);
      var rest := RunWith(step, first.next, events[1..]);
      Transition(rest.next, first.actions + rest.actions)
  }

  /** A run of events through the main loop from mode m. */
  function Run(m: Mode, events: seq<Event>, width: WidthFn): (t: Transition)
  {
    RunWith((m', e) => Step(m', e, width), m, events)
  }

  /** Running two batches of events one after the other is running them
      together. */
  lemma {:induction false} RunWithAppend(step: (Mode, Event) -> Transition, m: Mode, a: seq<Event>, b: seq<Event>)
    ensures var ra := RunWith(step, m, a);
            var rb := RunWith(step, ra.next, b);
            RunWith(step, m, a + b) == Transition(rb.next, ra.actions + rb.actions)
    decreases |a|
  {
    if |a| == 0 {
      assert a + b == b;
    } else {
      var first := step(m, a[0]);
      assert (a + b)[0] == a[0];
      assert (a + b)[1..] == a[1..] + b;
      RunWithAppend(step, first.next, a[1..], b);
      var ra := RunWith(step, first.next, a[1..]);
      var rb := RunWith(step, ra.next, b);
      assert first.actions + (ra.actions + rb.actions) == (first.actions + ra.actions) + rb.actions;
    }
  }

  /** ... and so for the main loop. */
  lemma RunAppend(m: Mode, a: seq<Event>, b: seq<Event>, width: WidthFn)
    ensures var ra := Run(m, a, width);
            var rb := Run(ra.next, b, width);
            Run(m, a + b, width) == Transition(rb.next, ra.actions + rb.actions)
  {
    RunWithAppend((m', e) => Step(m', e, width), m, a, b);
  }

  /** After a fault nothing more happens. */
  lemma {:induction false} FaultIsFinal(h: Hazard, events: seq<Event>, width: WidthFn)
    ensures Run(Fault(h), events, width) == Transition(Fault(h), [])
    decreases |events|
  {
    if |events| > 0 {
      FaultIsFinal(h, events[1..], width);
    }
  }

  /** At a checkpoint, keys other than `h` and `t` make the robot neither
      move nor speak, however many of them arrive. */
  lemma {:induction false} CheckpointWaits(m: Mode, events: seq<Event>, width: WidthFn)
    requires m.IsCheckpoint()
    requires forall i :: 0 <= i < |events| ==> events[i].key != 'h' && events[i].key != 't'
    ensures Run(m, events, width) == Transition(m, [])
    decreases |events|
  {
    if |events| > 0 {
      CheckpointWaits(m, events[1..], width);
    }
  }

  /** The keys and readings of a run of events, as manual mode reads them. */
  function Inputs(events: seq<Event>): (inputs: seq<Input>)
    ensures |inputs| == |events|
    ensures forall i :: 0 <= i < |events| ==> inputs[i] == Input(events[i].key, events[i].sensors)
  {
    seq(|events|, i requires 0 <= i < |events| => Input(events[i].key, events[i].sensors))
  }

  /** The step machine in manual mode does what the loop of
      `engageManualMode` does: from any input on, the same actions up to
      and including the first `t`, after which it is back at the first
      checkpoint. */
  lemma {:induction false} ManualRunIsManualLoop(events: seq<Event>, i: nat, width: WidthFn)
    requires i <= |events|
    ensures var s := ManualLoopFrom(Inputs(events), i);
            Run(Manual, events[i..s.used], width) == Transition(if s.exited then AwaitScan else Manual, s.actions)
    decreases |events| - i
  {
    var inputs := Inputs(events);
    var s := ManualLoopFrom(inputs, i);
    if i == |events| {
      assert events[i..s.used] == [];
    } else {
      var e := events[i];
      var step := ManualKey(e.key, e.sensors);
      assert Step(Manual, e, width) == Transition(if step.leave then AwaitScan else Manual, step.actions);
      var run := events[i..s.used];
      assert run[0] == e;
      if e.key == 't' {
        assert run[1..] == [];
        assert Run(AwaitScan, run[1..], width) == Transition(AwaitScan, []);
        assert step.actions + [] == step.actions;
      } else {
        var s' := ManualLoopFrom(inputs, i + 1);
        assert run[1..] == events[i + 1..s'.used];
        ManualRunIsManualLoop(events, i + 1, width);
      }
    }
  }

  /** `t` at a checkpoint runs `engageManualMode`: the greeting, then the
      manual loop on the events that follow, up to and including the `t`
      that ends it, after which the robot is back at the first checkpoint. */
  lemma CheckpointManualIsEngage(m: Mode, e: Event, events: seq<Event>, width: WidthFn)
    requires m.IsCheckpoint() && e.key == 't'
    ensures var s := EngageManualMode(Inputs(events));
            Run(m, [e] + events[..s.used], width) == Transition(if s.exited then AwaitScan else Manual, s.actions)
  {
    var s := EngageManualMode(Inputs(events));
    var loop := ManualLoopFrom(Inputs(events), 0);
    RunAppend(m, [e], events[..s.used], width);
    var step := (m', e') => Step(m', e', width);
    assert step(m, e) == Transition(Manual, [Say(ToggledManual)]);
    assert [e][1..] == [] && RunWith(step, Manual, []) == Transition(Manual, []);
    assert Run(m, [e], width) == RunWith(step, m, [e]) == Transition(Manual, [Say(ToggledManual)]);
    ManualRunIsManualLoop(events, 0, width);
    assert events[0..loop.used] == events[..s.used];
  }
}
