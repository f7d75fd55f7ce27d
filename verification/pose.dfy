/** Dead reckoning of the robot's pose on the kitchen grid
    (`updateCyBotPosition`) and the projection of a table seen at some
    distance and bearing (`findTableLocation`). Cosine, sine and rounding
    are a parameter: `Trig(d, h)` is the rounded offset of a move of d cm
    at heading h degrees. */
module Pose {
  import opened Ints

  /** `TABLE_RADIUS` (cm): a table's centre lies this far beyond the edge
      the sensors see. */
  const TABLE_RADIUS: int := 6

  /** `gridPoint` */
  datatype Point = Point(x: int16, y: int16)

  /** The robot's position and its heading in degrees. */
  datatype Pose = Pose(at: Point, heading: int16)

  /** round(d * cos(h)), round(d * sin(h)) */
  type Trig = (int, int16) -> (int, int)

  /** The heading update: the int16 sum of heading and turn, then one
      correction by 360 in either direction. */
  function NewHeading(heading: int16, turn: int16): (r: int16)
    ensures (0 <= r < 360) <==> (-360 <= ToInt16(heading + turn) < 720)
    ensures IsInt16(heading + turn) ==> (r - (heading + turn)) % 360 == 0
  {
    var sum := ToInt16(heading + turn);
    if sum >= 360 then sum - 360
    else if sum < 0 then sum + 360
    else sum
  }

  /** From a normalised heading, any turn of at most a full circle either
      way gives a normalised heading again. */
  lemma SmallTurnNormalised(heading: int16, turn: int16)
    requires 0 <= heading < 360 && -360 <= turn <= 360
    ensures 0 <= NewHeading(heading, turn) < 360
  {
  }

  /** One correction is all there is: a turn of more than a full circle
      leaves the heading outside [0, 360). */
  lemma LargeTurnNotNormalised()
    ensures NewHeading(0, 720) == 360
    ensures NewHeading(0, -400) == -40
  {
  }

  /** Successive small turns from a normalised heading add up modulo 360. */
  lemma {:induction false} TurnsCompose(heading: int16, t1: int16, t2: int16)
    requires 0 <= heading < 360 && -360 <= t1 <= 360 && -360 <= t2 <= 360
    ensures var h := NewHeading(NewHeading(heading, t1), t2);
            0 <= h < 360 && (h - (heading + t1 + t2)) % 360 == 0
  {
    var h1 := NewHeading(heading, t1);
    var h := NewHeading(h1, t2);
    assert (h1 - (heading + t1)) % 360 == 0;
    assert (h - (h1 + t2)) % 360 == 0;
    assert h - (heading + t1 + t2) == (h - (h1 + t2)) + (h1 - (heading + t1));
  }

  /** Turn first, then move `distance` cm along the new heading. */
  function Advance(p: Pose, distance: int, turn: int16, trig: Trig): Pose
  {
    var heading := NewHeading(p.heading, turn);
    var (dx, dy) := trig(distance, heading);
    Pose(Point(ToInt16(p.at.x + dx), ToInt16(p.at.y + dy)), heading)
  }

  /** `updateCyBotPosition`: the robot turns first and then moves along
      its new heading; each coordinate is narrowed to int16. */
  function UpdateCyBotPosition(p: Pose, traveled: byte, turn: int16, trig: Trig): (r: Pose)
    ensures r.heading == NewHeading(p.heading, turn)
    ensures var (dx, dy) := trig(traveled, r.heading);
            && (r.at.x - (p.at.x + dx)) % 0x1_0000 == 0
            && (r.at.y - (p.at.y + dy)) % 0x1_0000 == 0
            && (IsInt16(p.at.x + dx) && IsInt16(p.at.y + dy) ==> r.at == Point(p.at.x + dx, p.at.y + dy))
  {
    Advance(p, traveled, turn, trig)
  }

  /** A move that covers no ground only turns the robot, whatever the
      heading, as long as a zero-length move has a zero offset. */
  lemma TurnOnSpot(p: Pose, turn: int16, trig: Trig)
    requires forall h: int16 :: trig(0, h) == (0, 0)
    ensures UpdateCyBotPosition(p, 0, turn, trig).at == p.at
  {
    var h := NewHeading(p.heading, turn);
    assert trig(0, h) == (0, 0);
  }

  /** The distance `findTableLocation` hands on, as written: the int sum
      `tableDistance + TABLE_RADIUS` is narrowed to the uint8_t parameter. */
  function TableRangeAsWritten(tableDistance: byte): (r: byte)
  {
    ToByte(tableDistance + TABLE_RADIUS)
  }

  /** As written, the table centre is beyond the seen edge only for
      distances below 250; from 250 on the sum wraps to 0 .. 5 cm. */
  lemma RadiusWrapsAt250(tableDistance: byte)
    ensures TableRangeAsWritten(tableDistance) > tableDistance <==> tableDistance < 250
    ensures tableDistance >= 250 ==> TableRangeAsWritten(tableDistance) == tableDistance - 250
  {
  }

  /** The distance to the table's centre, without narrowing. It differs
      from the narrowed one exactly when the sum does not fit a uint8_t,
      and the two always agree modulo 256. */
  function TableRange(tableDistance: byte): (r: int)
    ensures r == TableRangeAsWritten(tableDistance) <==> tableDistance < 250
    ensures r % 0x100 == TableRangeAsWritten(tableDistance)
  {
    tableDistance as int + TABLE_RADIUS
  }

  /** What `findTableLocation` leaves behind: the table's centre it
      returns, and the robot's pose as it stands on return. */
  datatype Located = Located(table: Point, pose: Pose)

  /** `findTableLocation` as written: it saves the pose, lets
      `updateCyBotPosition` turn by the bearing and drive the narrowed range
      on the live pose, takes the position reached as the table's centre,
      and then restores the saved pose. */
  function FindTableLocationAsWritten(p: Pose, tableDistance: byte, tableDegrees: int16, trig: Trig): (r: Located)
    ensures r.pose == p
    ensures var (dx, dy) := trig(TableRangeAsWritten(tableDistance), NewHeading(p.heading, tableDegrees));
            && (r.table.x - (p.at.x + dx)) % 0x1_0000 == 0
            && (r.table.y - (p.at.y + dy)) % 0x1_0000 == 0
  {
    var saved := p;
    var moved := UpdateCyBotPosition(p, TableRangeAsWritten(tableDistance), tableDegrees, trig);
    Located(moved.at, saved)
  }

  /** A table seen 250 cm away straight ahead is placed on the robot's own
      position. */
  lemma TableAtRobotAsWritten(p: Pose, trig: Trig)
    requires forall h: int16 :: trig(0, h) == (0, 0)
    ensures FindTableLocationAsWritten(p, 250, 0, trig).table == p.at
  {
    TurnOnSpot(p, 0, trig);
  }

  /** `findTableLocation` with the distance kept as an int: the table's
      centre lies TABLE_RADIUS beyond the edge that was seen, and the pose
      is restored in the same way. */
  function FindTableLocation(p: Pose, tableDistance: byte, tableDegrees: int16, trig: Trig): (r: Located)
    ensures r.pose == p
    ensures var (dx, dy) := trig(TableRange(tableDistance), NewHeading(p.heading, tableDegrees));
            && (r.table.x - (p.at.x + dx)) % 0x1_0000 == 0
            && (r.table.y - (p.at.y + dy)) % 0x1_0000 == 0
  {
    var saved := p;
    var moved := Advance(p, TableRange(tableDistance), tableDegrees, trig);
    Located(moved.at, saved)
  }

  /** Below 250 cm both versions agree. */
  lemma FindTableLocationAgrees(p: Pose, tableDistance: byte, tableDegrees: int16, trig: Trig)
    requires tableDistance < 250
    ensures FindTableLocation(p, tableDistance, tableDegrees, trig) == FindTableLocationAsWritten(p, tableDistance, tableDegrees, trig)
  {
  }
}
