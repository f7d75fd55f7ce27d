/** Manual driving: the key commands of `executeBotCommand` and the loop of
    `engageManualMode`. Motor, servo and serial effects are not performed
    but recorded, in order, as actions. */
module Commands {
  import opened Ints
  import opened Outcomes
  import opened Scan

  /** `BOT_MAX_SPEED`, `BOT_CRUISE_SPEED`, `BOT_TURN_SPEED` (mm/s) */
  const BOT_MAX_SPEED: int := 500
  const BOT_CRUISE_SPEED: int := 200
  const BOT_TURN_SPEED: int := 50

  /** Degrees of one `q` or `e` turn, and the distance handed to the
      obstacle course by `4`. */
  const NUDGE_DEGREES: int := 5
  const OBSTACLE_COURSE_CM: int := 200

  /** The text the robot sends over the serial link. */
  datatype Message =
    | ToggledManual
    | ToggledAuto
    | ScanTable(samples: seq<Sample>)
    | TargetReport(angle: byte, distance: byte)
    | DetourReport(degrees: int)
    | Newline

  /** One observable effect, in the order the firmware causes them.
      `SetWheels` is `oi_setWheels`; the others stand for the movement
      routines, whose feedback loops on odometry are not modelled. */
  datatype Action =
    | Say(msg: Message)
    | SetWheels(left: int, right: int)
    | MoveServo(angle: byte)
    | Sweep(samples: seq<Sample>)
    | TurnDegrees(speed: int, degrees: int)
    | DriveDistance(speed: int, cm: int)
    | DrivePrecise(speed: int, cm: int)
    | DriveSquare
    | DriveObstacles(cm: int)

  /** `bot_drive`: both wheels at the same velocity. */
  function Drive(velocity: int): Action { SetWheels(velocity, velocity) }

  /** `bot_turn`: a tank turn, left for positive velocity. */
  function Spin(velocity: int): Action { SetWheels(velocity, -velocity) }

  /** `bot_stopWheels` */
  const STOP: Action := SetWheels(0, 0)

  /** The ten recognised commands. */
  datatype Command =
    | Forward | Backward | SpinLeft | SpinRight | ScanAndPrint
    | Halt | Square | ObstacleCourse | NudgeLeft | NudgeRight

  const COMMAND_KEYS: set<char> := {'w', 's', 'a', 'd', 'm', ' ', '3', '4', 'q', 'e'}

  /** The key that selects each command. */
  function KeyOf(c: Command): (key: char)
    ensures key in COMMAND_KEYS
  {
    match c
    case Forward => 'w'
    case Backward => 's'
    case SpinLeft => 'a'
    case SpinRight => 'd'
    case ScanAndPrint => 'm'
    case Halt => ' '
    case Square => '3'
    case ObstacleCourse => '4'
    case NudgeLeft => 'q'
    case NudgeRight => 'e'
  }

  /** The `switch` of `executeBotCommand`: a command for each of the ten
      keys and nothing for any other character. */
  function ParseCommand(key: char): (r: Option<Command>)
    ensures r.Some? <==> key in COMMAND_KEYS
    ensures r.Some? ==> KeyOf(r.value) == key
  {
    match key
    case 'w' => Some(Forward)
    case 's' => Some(Backward)
    case 'a' => Some(SpinLeft)
    case 'd' => Some(SpinRight)
    case 'm' => Some(ScanAndPrint)
    case ' ' => Some(Halt)
    case '3' => Some(Square)
    case '4' => Some(ObstacleCourse)
    case 'q' => Some(NudgeLeft)
    case 'e' => Some(NudgeRight)
    case _ => None
  }

  /** Every command is selected by its own key: keys and commands are in
      one-to-one correspondence. */
  lemma ParseKeyOf(c: Command)
    ensures ParseCommand(KeyOf(c)) == Some(c)
  {
    match c
    case Forward =>
    case Backward =>
    case SpinLeft =>
    case SpinRight =>
    case ScanAndPrint =>
    case Halt =>
    case Square =>
    case ObstacleCourse =>
    case NudgeLeft =>
    case NudgeRight =>
  }

  /** What each command does before the newline is sent. `m` sweeps the
      field and prints the table of samples. */
  function Perform(c: Command, sensors: Sensors): seq<Action>
  {
    match c
    case Forward => [Drive(BOT_MAX_SPEED)]
    case Backward => [Drive(-BOT_MAX_SPEED)]
    case SpinLeft => [Spin(BOT_TURN_SPEED)]
    case SpinRight => [Spin(-BOT_TURN_SPEED)]
    case ScanAndPrint =>
      var samples := StandardScan(sensors);
      [Sweep(samples), Say(ScanTable(samples))]
    case Halt => [STOP]
    case Square => [DriveSquare]
    case ObstacleCourse => [DriveObstacles(OBSTACLE_COURSE_CM)]
    case NudgeLeft => [TurnDegrees(BOT_TURN_SPEED, NUDGE_DEGREES)]
    case NudgeRight => [TurnDegrees(BOT_TURN_SPEED, -NUDGE_DEGREES)]
  }

  /** The status `executeBotCommand` returns and what it did. */
  datatype Executed = Executed(status: int, actions: seq<Action>)

  /** `executeBotCommand`: status 1 exactly for the ten command keys, after
      the command's actions and a newline requesting the next key; status 0
      and no effect at all for any other key. */
  function ExecuteBotCommand(key: char, sensors: Sensors): (r: Executed)
    ensures r.status == 1 <==> key in COMMAND_KEYS
    ensures r.status == 0 <==> key !in COMMAND_KEYS
    ensures r.status == 0 ==> r.actions == []
    ensures r.status == 1 ==> |r.actions| >= 2 && r.actions[|r.actions| - 1] == Say(Newline)
  {
    match ParseCommand(key)
    case None => Executed(0, [])
    case Some(c) => Executed(1, Perform(c, sensors) + [Say(Newline)])
  }

  /** An action with every wheel velocity and turn angle negated. */
  function Mirrored(a: Action): Action
  {
    match a
    case SetWheels(l, r) => SetWheels(-l, -r)
    case TurnDegrees(speed, degrees) => TurnDegrees(speed, -degrees)
    case _ => a
  }

  /** The paired keys undo each other: `s` is `w` reversed, `d` is `a`
      reversed and `e` is `q` reversed. */
  lemma OppositeKeys(sensors: Sensors)
    ensures Perform(Backward, sensors) == [Mirrored(Perform(Forward, sensors)[0])]
    ensures Perform(SpinRight, sensors) == [Mirrored(Perform(SpinLeft, sensors)[0])]
    ensures Perform(NudgeRight, sensors) == [Mirrored(Perform(NudgeLeft, sensors)[0])]
  {
  }

  /** The wheel keys: `w` and `s` drive both wheels alike, `a` and `d` turn
      on the spot with the wheels in opposite directions. */
  lemma WheelKeys(key: char, sensors: Sensors)
    requires key in {'w', 's', 'a', 'd'}
    ensures var r := ExecuteBotCommand(key, sensors);
            && r.actions[0].SetWheels?
            && (key in {'w', 's'} <==> r.actions[0].left == r.actions[0].right)
            && (key in {'a', 'd'} <==> r.actions[0].left == -r.actions[0].right)
  {
  }

  /** One key in manual mode: `t` stops the wheels, announces automatic
      mode and leaves; any other key goes to `executeBotCommand`. */
  datatype ManualStep = ManualStep(leave: bool, actions: seq<Action>)

  function ManualKey(key: char, sensors: Sensors): (r: ManualStep)
    ensures r.leave <==> key == 't'
    ensures r.leave ==> r.actions == [STOP, Say(ToggledAuto)]
  {
    if key == 't' then ManualStep(true, [STOP, Say(ToggledAuto)])
    else ManualStep(false, ExecuteBotCommand(key, sensors).actions)
  }

  /** A key read from the serial link, with the sensor readings a sweep
      started by that key would see. */
  datatype Input = Input(key: char, sensors: Sensors)

  /** The outcome of the manual loop on a run of inputs: how many inputs it
      consumed, what it did, and whether it returned. */
  datatype Session = Session(used: nat, actions: seq<Action>, exited: bool)

  /** The loop of `engageManualMode` after its greeting, from input i on: it
      returns on the first `t` and leaves the inputs after it unread;
      without a `t` it consumes every input. */
  function ManualLoopFrom(inputs: seq<Input>, i: nat): (r: Session)
    requires i <= |inputs|
    ensures i <= r.used <= |inputs|
    ensures r.exited <==> exists j :: i <= j < |inputs| && inputs[j].key == 't'
    ensures !r.exited ==> r.used == |inputs|
    ensures r.exited ==> && i < r.used && inputs[r.used - 1].key == 't'
                         && forall j :: i <= j < r.used - 1 ==> inputs[j].key != 't'
    decreases |inputs| - i
  {
    if i == |inputs| then Session(i, [], false)
    else
      var step := ManualKey(inputs[i].key, inputs[i].sensors);
      if step.leave then Session(i + 1, step.actions, true)
      else
        var rest := ManualLoopFrom(inputs, i + 1);
        Session(rest.used, step.actions + rest.actions, rest.exited)
  }

  /** The whole loop. */
  function ManualLoop(inputs: seq<Input>): (r: Session)
    ensures r.exited <==> exists j :: 0 <= j < |inputs| && inputs[j].key == 't'
  {
    ManualLoopFrom(inputs, 0)
  }

  /** Leaving manual mode always stops the wheels and announces automatic
      mode, as the last two things the loop does. */
  lemma {:induction false} ManualLoopStopsWheels(inputs: seq<Input>, i: nat)
    requires i <= |inputs|
    ensures var r := ManualLoopFrom(inputs, i);
            r.exited ==> |r.actions| >= 2 && r.actions[|r.actions| - 2..] == [STOP, Say(ToggledAuto)]
    decreases |inputs| - i
  {
    if i < |inputs| && inputs[i].key != 't' {
      ManualLoopStopsWheels(inputs, i + 1);
      var step := ManualKey(inputs[i].key, inputs[i].sensors);
      var rest := ManualLoopFrom(inputs, i + 1);
      var actions := step.actions + rest.actions;
      if rest.exited {
        assert actions[|actions| - 2..] == rest.actions[|rest.actions| - 2..];
      }
    }
  }

  /** `engageManualMode`: the greeting, then the loop. */
  function EngageManualMode(inputs: seq<Input>): (r: Session)
    ensures |r.actions| > 0 && r.actions[0] == Say(ToggledManual)
    ensures r.actions[1..] == ManualLoop(inputs).actions
    ensures r.used == ManualLoop(inputs).used && r.exited == ManualLoop(inputs).exited
  {
    var loop := ManualLoop(inputs);
    Session(loop.used, [Say(ToggledManual)] + loop.actions, loop.exited)
  }

  /** The loop does the same on inputs that agree from some point on. */
  lemma {:induction false} LoopShift(a: seq<Input>, b: seq<Input>, k: nat, offset: nat)
    requires k <= |a| && |b| == |a| + offset
    requires forall j :: k <= j < |a| ==> b[j + offset] == a[j]
    ensures ManualLoopFrom(b, k + offset).actions == ManualLoopFrom(a, k).actions
    ensures ManualLoopFrom(b, k + offset).exited == ManualLoopFrom(a, k).exited
    decreases |a| - k
  {
    if k < |a| {
      assert b[k + offset] == a[k];
      var step := ManualKey(a[k].key, a[k].sensors);
      if !step.leave {
        LoopShift(a, b, k + 1, offset);
        var ra, rb := ManualLoopFrom(a, k + 1), ManualLoopFrom(b, k + 1 + offset);
        assert ManualLoopFrom(a, k).actions == step.actions + ra.actions;
        assert ManualLoopFrom(b, k + offset).actions == step.actions + rb.actions;
      }
    }
  }

  /** Dropping an unrecognised key that comes before the first `t` changes
      nothing from any earlier input on. */
  lemma {:induction false} DroppedKeyFrom(inputs: seq<Input>, i: nat, j: nat)
    requires j <= i < |inputs| && inputs[i].key !in COMMAND_KEYS && inputs[i].key != 't'
    ensures var dropped := inputs[..i] + inputs[i + 1..];
            && ManualLoopFrom(dropped, j).actions == ManualLoopFrom(inputs, j).actions
            && ManualLoopFrom(dropped, j).exited == ManualLoopFrom(inputs, j).exited
    decreases i - j
  {
    var dropped := inputs[..i] + inputs[i + 1..];
    var step := ManualKey(inputs[j].key, inputs[j].sensors);
    if j == i {
      assert step.actions == [];
      assert ManualLoopFrom(inputs, i).actions == [] + ManualLoopFrom(inputs, i + 1).actions;
      LoopShift(dropped, inputs, i, 1);
    } else {
      assert dropped[j] == inputs[j];
      if !step.leave {
        DroppedKeyFrom(inputs, i, j + 1);
        assert ManualLoopFrom(dropped, j).actions == step.actions + ManualLoopFrom(dropped, j + 1).actions;
        assert ManualLoopFrom(inputs, j).actions == step.actions + ManualLoopFrom(inputs, j + 1).actions;
      }
    }
  }

  /** Keys the firmware does not recognise leave no trace in manual mode:
      dropping one from the input changes nothing the robot does. */
  lemma UnknownKeyIgnored(inputs: seq<Input>, i: nat)
    requires i < |inputs| && inputs[i].key !in COMMAND_KEYS && inputs[i].key != 't'
    ensures ManualLoop(inputs[..i] + inputs[i + 1..]).actions == ManualLoop(inputs).actions
    ensures ManualLoop(inputs[..i] + inputs[i + 1..]).exited == ManualLoop(inputs).exited
  {
    DroppedKeyFrom(inputs, i, 0);
  }
}
