/** The list of tables already served (`isVisitedTable`): five slots of
    grid points, filled from the front, in which the point (0, 0) marks an
    empty slot. */
module Landmarks {
  import opened Ints
  import opened Outcomes
  import opened Pose

  /** `MAX_TABLES` */
  const MAX_TABLES: nat := 5

  /** `TABLE_TOLERANCE` (cm): two table centres closer than this in both
      axes are the same table. */
  const TABLE_TOLERANCE: byte := 50

  predicate IsEmptySlot(p: Point)
  {
    p.x == 0 && p.y == 0
  }

  /** The number of occupied slots before the first empty one. */
  function Occupied(tables: seq<Point>): (n: nat)
    ensures n <= |tables|
    ensures forall i :: 0 <= i < n ==> !IsEmptySlot(tables[i])
    ensures n < |tables| ==> IsEmptySlot(tables[n])
  {
    if |tables| == 0 || IsEmptySlot(tables[0]) then 0 else 1 + Occupied(tables[1..])
  }

  /** The comparison as written: each int16 coordinate is passed to the
      uint8_t parameters of `isWithinTolerance`, i.e. taken modulo 256. */
  predicate SameTableAsWritten(a: Point, b: Point)
  {
    && IsWithinTolerance(ToByte(a.x), ToByte(b.x), TABLE_TOLERANCE)
    && IsWithinTolerance(ToByte(a.y), ToByte(b.y), TABLE_TOLERANCE)
  }

  /** The comparison on the coordinates themselves. */
  predicate SameTable(a: Point, b: Point)
  {
    Abs(a.x - b.x) < TABLE_TOLERANCE as int && Abs(a.y - b.y) < TABLE_TOLERANCE as int
  }

  /** The loop of `isVisitedTable` from slot `cursor` on, as written. Its
      condition reads the slot before it tests `cursor < MAX_TABLES`, so
      after five occupied, non-matching slots it reads a sixth. */
  function VisitedFrom(tables: seq<Point>, location: Point, cursor: nat): (r: Result<bool, Hazard>)
    requires |tables| == MAX_TABLES && cursor <= MAX_TABLES
    decreases MAX_TABLES - cursor
  {
    if cursor == MAX_TABLES then Failure(TableSlotPastEnd)
    else if IsEmptySlot(tables[cursor]) then Success(false)
    else if SameTableAsWritten(tables[cursor], location) then Success(true)
    else VisitedFrom(tables, location, cursor + 1)
  }

  /** What the loop from `cursor` yields, in terms of the slots it visits. */
  lemma {:induction false} VisitedFromIs(tables: seq<Point>, location: Point, cursor: nat)
    requires |tables| == MAX_TABLES && cursor <= Occupied(tables)
    ensures var r := VisitedFrom(tables, location, cursor);
            && (r == Success(true) <==> exists i :: cursor <= i < Occupied(tables) && SameTableAsWritten(tables[i], location))
            && (r.Failure? <==> Occupied(tables) == MAX_TABLES
                                && forall i :: cursor <= i < MAX_TABLES ==> !SameTableAsWritten(tables[i], location))
            && (r.Failure? ==> r.error == TableSlotPastEnd)
    decreases MAX_TABLES - cursor
  {
    if cursor < MAX_TABLES && !IsEmptySlot(tables[cursor]) && !SameTableAsWritten(tables[cursor], location) {
      VisitedFromIs(tables, location, cursor + 1);
    }
  }

  /** `isVisitedTable` as written: 1 when an occupied slot before the first
      empty one matches, 0 when none does and an empty slot ends the
      search; the read past the array when all five slots are occupied and
      none matches. */
  function IsVisitedTableAsWritten(tables: seq<Point>, location: Point): (r: Result<bool, Hazard>)
    requires |tables| == MAX_TABLES
    ensures r == Success(true) <==> exists i :: 0 <= i < Occupied(tables) && SameTableAsWritten(tables[i], location)
    ensures r.Failure? <==> Occupied(tables) == MAX_TABLES
                            && forall i :: 0 <= i < MAX_TABLES ==> !SameTableAsWritten(tables[i], location)
    ensures r.Failure? ==> r.error == TableSlotPastEnd
  {
    VisitedFromIs(tables, location, 0);
    VisitedFrom(tables, location, 0)
  }

  /** `isVisitedTable` with the bound checked first and the coordinates
      compared as int16 values. */
  method IsVisitedTable(tables: seq<Point>, location: Point) returns (visited: bool)
    requires |tables| == MAX_TABLES
    ensures visited <==> exists i :: 0 <= i < Occupied(tables) && SameTable(tables[i], location)
  {
    visited := false;
    var cursor := 0;
    while cursor < MAX_TABLES && !IsEmptySlot(tables[cursor])
      invariant 0 <= cursor <= Occupied(tables)
      invariant forall i :: 0 <= i < cursor ==> !SameTable(tables[i], location)
    {
      if SameTable(tables[cursor], location) {
        return true;
      }
      cursor := cursor + 1;
    }
  }

  /** Slots after the first empty one are never looked at. */
  lemma SlotsAfterEmptyIgnored(tables: seq<Point>, tables': seq<Point>, location: Point)
    requires |tables| == |tables'| == MAX_TABLES
    requires Occupied(tables) < MAX_TABLES
    requires tables[..Occupied(tables) + 1] == tables'[..Occupied(tables) + 1]
    ensures Occupied(tables') == Occupied(tables)
    ensures IsVisitedTableAsWritten(tables, location) == IsVisitedTableAsWritten(tables', location)
  {
    var n := Occupied(tables);
    assert forall i :: 0 <= i <= n ==> tables[i] == tables'[i] by {
      forall i | 0 <= i <= n ensures tables[i] == tables'[i] {
        assert tables[..n + 1][i] == tables'[..n + 1][i];
      }
    }
    OccupiedFromPrefix(tables, tables', n);
  }

  /** Two slot lists that agree up to and including the first empty slot
      of one have the same number of occupied slots. */
  lemma {:induction false} OccupiedFromPrefix(tables: seq<Point>, tables': seq<Point>, n: nat)
    requires |tables| == |tables'| && n == Occupied(tables) < |tables|
    requires forall i :: 0 <= i <= n ==> tables[i] == tables'[i]
    ensures Occupied(tables') == n
  {
    if n > 0 {
      OccupiedFromPrefix(tables[1..], tables'[1..], n - 1);
    }
  }

  /** A table stored at (0, 0) is taken for an empty slot: a list that
      starts with it has no tables at all. */
  lemma OriginTableInvisible(tables: seq<Point>, location: Point)
    requires |tables| == MAX_TABLES && tables[0] == Point(0, 0)
    ensures IsVisitedTableAsWritten(tables, location) == Success(false)
  {
  }

  /** Five tables far from each other and from the location: the loop as
      written reads a sixth slot. */
  lemma SlotPastEndRead()
    ensures IsVisitedTableAsWritten([Point(100, 100), Point(100, 100), Point(100, 100), Point(100, 100), Point(100, 100)],
                                    Point(-100, -100)).Failure?
  {
    var tables := [Point(100, 100), Point(100, 100), Point(100, 100), Point(100, 100), Point(100, 100)];
    assert Occupied(tables) == MAX_TABLES by {
      assert tables[1..][1..][1..][1..][1..] == [];
    }
    assert ToByte(-100) == 156;
  }

  /** Narrowing to uint8_t makes points 256 cm apart the same table. */
  lemma TruncationFalseMatch()
    ensures IsVisitedTableAsWritten([Point(300, 10), Point(0, 0), Point(0, 0), Point(0, 0), Point(0, 0)], Point(44, 10)) == Success(true)
    ensures !SameTable(Point(300, 10), Point(44, 10))
  {
    var tables := [Point(300, 10), Point(0, 0), Point(0, 0), Point(0, 0), Point(0, 0)];
    assert Occupied(tables) == 1 by {
      assert Occupied(tables[1..]) == 0;
    }
    assert ToByte(300) == 44;
    assert SameTableAsWritten(tables[0], Point(44, 10));
  }

  /** ... and a table 1 cm away across zero a different one. */
  lemma TruncationFalseMiss()
    ensures IsVisitedTableAsWritten([Point(-1, 10), Point(0, 0), Point(0, 0), Point(0, 0), Point(0, 0)], Point(1, 10)) == Success(false)
    ensures SameTable(Point(-1, 10), Point(1, 10))
  {
    var tables := [Point(-1, 10), Point(0, 0), Point(0, 0), Point(0, 0), Point(0, 0)];
    assert Occupied(tables) == 1 by {
      assert Occupied(tables[1..]) == 0;
    }
    assert ToByte(-1) == 255;
  }

  /** Where no coordinate leaves [0, 256) the two comparisons agree. */
  lemma ComparisonsAgreeInRange(a: Point, b: Point)
    requires IsByte(a.x) && IsByte(a.y) && IsByte(b.x) && IsByte(b.y)
    ensures SameTableAsWritten(a, b) <==> SameTable(a, b)
  {
  }
}
