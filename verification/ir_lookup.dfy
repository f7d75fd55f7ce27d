/** The infrared range finder's voltage-to-distance conversion
    (`adc_calculateIRDistance`): a binary search over a fixed calibration
    table followed by a nearest-entry adjustment.

    The search and its proofs are written over any strictly decreasing
    21-entry table `t`; the firmware's own table is `IR_TABLE`. */
module IrLookup {
  import opened Ints

  /** `IR_DISTANCE_LOOKUP`: entry k is the ADC reading seen at 10 + 2k cm. */
  const IR_TABLE: seq<int> := [2784, 2456, 2185, 1983, 1867, 1756, 1663, 1546, 1469, 1414, 1376,
                               1324, 1281, 1236, 1206, 1169, 1148, 1143, 1098, 1077, 1059]

  /** Index of the last table entry (`largestIndex` starts here). */
  const LAST: nat := 20

  /** The distance, in cm, that table entry k stands for. */
  function DistanceOf(k: int): int
  {
    10 + 2 * k
  }

  /** Table index of a distance produced by the lookup. */
  function IndexOf(d: int): int
  {
    (d - 10) / 2
  }

  /** `d` is one of the 21 distances of the table. */
  predicate IsTableDistance(d: int)
  {
    0 <= IndexOf(d) <= LAST && DistanceOf(IndexOf(d)) == d
  }

  /** ... that is, an even number of centimetres from 10 to 50. */
  lemma TableDistancesAreEven(d: int)
    ensures IsTableDistance(d) <==> 10 <= d <= 50 && d % 2 == 0
  {
  }

  /** A calibration table: 21 readings, strictly decreasing with distance. */
  predicate Calibration(t: seq<int>)
  {
    |t| == LAST + 1 && forall i, j :: 0 <= i < j <= LAST ==> t[i] > t[j]
  }

  /** The firmware's table decreases strictly from entry to entry ... */
  lemma TableStrictlyDecreasing()
    ensures |IR_TABLE| == LAST + 1
    ensures forall i :: 0 <= i < LAST ==> IR_TABLE[i] > IR_TABLE[i + 1]
  {
  }

  /** ... and hence between any two entries ... */
  lemma {:induction false} TableOrdered(i: int, j: int)
    requires 0 <= i < j <= LAST
    ensures IR_TABLE[i] > IR_TABLE[j]
    decreases j - i
  {
    TableStrictlyDecreasing();
    if i + 1 < j {
      TableOrdered(i + 1, j);
    }
  }

  /** ... so it is a calibration table. */
  lemma TableIsCalibration()
    ensures Calibration(IR_TABLE)
  {
    forall i, j | 0 <= i < j <= LAST
      ensures IR_TABLE[i] > IR_TABLE[j]
    {
      TableOrdered(i, j);
    }
  }

  /** Entry k is one of the two entries of `t` that bracket the reading:
      every entry before k reads higher, every entry after k reads no higher. */
  predicate Brackets(t: seq<int>, mv: int, k: int)
    requires |t| == LAST + 1
  {
    && 0 <= k <= LAST
    && (k == 0 || t[k - 1] > mv)
    && (k == LAST || t[k + 1] <= mv)
  }

  /** State of the search after its loop: `smallestIndex`, `largestIndex`
      and the last probed `closestIndex`. */
  datatype SearchState = SearchState(smallest: int, largest: int, closest: int)

  /** The loop invariant of the search. The last conjunct records which
      upper bounds are reachable while the lower bound is still 0; it is
      what rules out `closestIndex - 1` wrapping below zero. */
  ghost predicate SearchInvariant(t: seq<int>, mv: int, s: int, l: int)
    requires |t| == LAST + 1
  {
    && 0 <= s <= LAST && 0 <= l <= LAST && s <= l + 1
    && (forall i :: 0 <= i < s ==> t[i] > mv)
    && (forall i :: l < i <= LAST ==> t[i] <= mv)
    && (s == 0 ==> l == 20 || l == 9 || l == 3 || l == 0)
  }

  /** How the loop ends: the bounds have met or crossed, the last probe lies
      in 1..19, and it sits just below the lower bound (it read higher than
      `mv`) or just above the upper bound (it read no higher). */
  ghost predicate SearchDone(t: seq<int>, mv: int, r: SearchState)
    requires |t| == LAST + 1
  {
    && 1 <= r.closest <= LAST - 1
    && SearchInvariant(t, mv, r.smallest, r.largest) && r.largest <= r.smallest
    && (|| (r.closest + 1 == r.smallest && t[r.closest] > mv)
        || (r.closest - 1 == r.largest && t[r.closest] <= mv))
  }

  /** A probe that reads higher than `mv` moves the lower bound past it;
      if that meets the upper bound, the loop is done. */
  lemma SearchStepUp(t: seq<int>, mv: int, s: int, l: int, c: int)
    requires Calibration(t)
    requires SearchInvariant(t, mv, s, l) && s < l && c == (l - s) / 2 + s
    requires t[c] > mv
    ensures s <= c <= l - 1 && 1 <= c + 1 <= LAST
    ensures SearchInvariant(t, mv, c + 1, l)
    ensures c + 1 >= l ==> SearchDone(t, mv, SearchState(c + 1, l, c))
  {
  }

  /** A probe that reads no higher than `mv` moves the upper bound below it;
      the probe is never index 0 here, so `closestIndex - 1` does not wrap. */
  lemma SearchStepDown(t: seq<int>, mv: int, s: int, l: int, c: int)
    requires Calibration(t)
    requires SearchInvariant(t, mv, s, l) && s < l && c == (l - s) / 2 + s
    requires t[c] <= mv
    ensures s <= c <= l - 1 && 1 <= c
    ensures SearchInvariant(t, mv, s, c - 1)
    ensures s >= c - 1 ==> SearchDone(t, mv, SearchState(s, c - 1, c))
  {
  }

  /** The `while (smallestIndex < largestIndex)` loop, one iteration per call.
      Both index updates are uint8_t arithmetic, written with `ToByte`; the
      contract shows neither ever wraps and the loop ends as `SearchDone`
      describes, so the reads of `closestIndex + 1` and the later
      `closestIndex - 1` stay in the table. */
  function Search(t: seq<int>, mv: int, s: byte, l: byte): (r: SearchState)
    requires Calibration(t)
    requires SearchInvariant(t, mv, s, l) && s < l
    ensures SearchDone(t, mv, r)
    decreases l - s
  {
    var c := (l - s) / 2 + s;
    if t[c] > mv then
      SearchStepUp(t, mv, s, l, c);
      var s' := ToByte(c + 1);
      if s' < l then Search(t, mv, s', l) else SearchState(s', l, c)
    else
      SearchStepDown(t, mv, s, l, c);
      var l' := ToByte(c - 1);
      if s < l' then Search(t, mv, s, l') else SearchState(s, l', c)
  }

  /** The two corrections after the loop: step back if the probe reads
      below `mv`, then step forward if `mv` lies more than half a gap below
      the current entry, the gap being measured on the probe's own pair. */
  function Adjust(t: seq<int>, mv: int, st: SearchState): (k: int)
    requires Calibration(t)
    requires SearchDone(t, mv, st)
    ensures Brackets(t, mv, k)
  {
    var c := st.closest;
    // the table decreases, so the C int division truncates a positive value
    var distBetween := (t[c] - t[c + 1]) / 2;
    var c1 := if t[c] < mv then c - 1 else c;
    var c2 := if t[c1] - distBetween > mv then c1 + 1 else c1;
    BracketAfterAdjustment(t, mv, st, distBetween, c1, c2);
    c2
  }

  /** Why the two corrections always land on a bracketing entry. */
  lemma BracketAfterAdjustment(t: seq<int>, mv: int, st: SearchState, distBetween: int, c1: int, c2: int)
    requires Calibration(t)
    requires SearchDone(t, mv, st)
    requires distBetween == (t[st.closest] - t[st.closest + 1]) / 2
    requires c1 == if t[st.closest] < mv then st.closest - 1 else st.closest
    requires c2 == if t[c1] - distBetween > mv then c1 + 1 else c1
    ensures Brackets(t, mv, c2)
  {
    var c := st.closest;
    assert t[c - 1] > t[c] > t[c + 1];
    assert 0 <= distBetween <= t[c] - t[c + 1];
    if st.closest + 1 == st.smallest && t[c] > mv {
      // the probe reads high: every entry past c + 1 reads no higher than mv
      if c2 == c + 1 {
        assert c + 2 <= LAST ==> t[c + 2] <= mv;
      } else {
        assert c - 1 < st.smallest;
      }
    } else if t[c] < mv {
      // the probe reads low: every entry before c - 1 reads higher than mv
      assert c + 1 > st.largest;
      if c2 == c - 1 {
        assert c - 2 >= 0 ==> c - 2 < st.smallest;
      }
    } else {
      assert c2 == c && c + 1 > st.largest;
    }
  }

  /** `adc_calculateIRDistance`, as written. */
  function IrDistance(mv: uint16): (d: int)
    ensures IsTableDistance(d)
    ensures mv > IR_TABLE[0] ==> d == 10
    ensures mv < IR_TABLE[LAST] ==> d == 50
    ensures Brackets(IR_TABLE, mv, IndexOf(d))
  {
    TableIsCalibration();
    if mv > IR_TABLE[0] then DistanceOf(0)
    else if mv < IR_TABLE[LAST] then DistanceOf(LAST)
    else
      var k := Adjust(IR_TABLE, mv, Search(IR_TABLE, mv, 0, LAST));
      assert IndexOf(DistanceOf(k)) == k;
      DistanceOf(k)
  }

  /** Index of the first entry of `t` that reads no higher than `mv` (21 if none). */
  function FirstAtOrBelow(t: seq<int>, mv: int, i: nat): (p: nat)
    requires |t| == LAST + 1 && i <= LAST + 1
    ensures i <= p <= LAST + 1
    ensures p <= LAST ==> t[p] <= mv
    decreases LAST + 1 - i
  {
    if i == LAST + 1 || t[i] <= mv then i else FirstAtOrBelow(t, mv, i + 1)
  }

  /** ... and every entry the scan passes over reads higher than `mv`. */
  lemma {:induction false} FirstAtOrBelowIsFirst(t: seq<int>, mv: int, i: nat)
    requires |t| == LAST + 1 && i <= LAST + 1
    requires forall j :: 0 <= j < i ==> t[j] > mv
    ensures forall j :: 0 <= j < FirstAtOrBelow(t, mv, i) ==> t[j] > mv
    decreases LAST + 1 - i
  {
    if i < LAST + 1 && t[i] > mv {
      FirstAtOrBelowIsFirst(t, mv, i + 1);
    }
  }

  /** Of the two entries around the first one at or below `mv`, the closer
      one; on a tie, the upper one. */
  function NearestIndex(t: seq<int>, mv: int): (k: int)
    requires |t| == LAST + 1
    ensures 0 <= k <= LAST
  {
    var p := FirstAtOrBelow(t, mv, 0);
    if p == 0 then 0
    else if p == LAST + 1 then LAST
    else if t[p - 1] - mv <= mv - t[p] then p - 1
    else p
  }

  /** In a calibration table that entry brackets `mv` and is nearest to it
      of all the entries. */
  lemma NearestIndexIsNearest(t: seq<int>, mv: int)
    requires Calibration(t)
    ensures Brackets(t, mv, NearestIndex(t, mv))
    ensures forall j :: 0 <= j <= LAST ==> Abs(t[NearestIndex(t, mv)] - mv) <= Abs(t[j] - mv)
  {
    FirstAtOrBelowIsFirst(t, mv, 0);
    var p, k := FirstAtOrBelow(t, mv, 0), NearestIndex(t, mv);
    forall j | 0 <= j <= LAST
      ensures Abs(t[k] - mv) <= Abs(t[j] - mv)
    {
      if j < p {
        assert j == p - 1 || t[j] > t[p - 1];
      } else {
        assert j == p || t[p] > t[j];
      }
    }
  }

  /** The lookup as its comments describe it: the distance of the table
      entry nearest to the reading (on a tie, the shorter distance). */
  function NearestIrDistance(mv: uint16): (d: int)
    ensures IsTableDistance(d)
  {
    var k := NearestIndex(IR_TABLE, mv);
    assert IndexOf(DistanceOf(k)) == k;
    DistanceOf(k)
  }

  /** Its entry brackets the reading and is nearest of all 21 entries. */
  lemma NearestIrDistanceIsNearest(mv: uint16)
    ensures Brackets(IR_TABLE, mv, IndexOf(NearestIrDistance(mv)))
    ensures forall j :: 0 <= j <= LAST ==>
              Abs(IR_TABLE[IndexOf(NearestIrDistance(mv))] - mv) <= Abs(IR_TABLE[j] - mv)
  {
    TableIsCalibration();
    NearestIndexIsNearest(IR_TABLE, mv);
    var k := NearestIndex(IR_TABLE, mv);
    assert IndexOf(DistanceOf(k)) == k;
  }

  /** The search for 1098 from bounds 16 and 17: probe 16 reads higher,
      so the lower bound moves to 17 and the loop ends. */
  lemma MisreadLastProbe()
    ensures Calibration(IR_TABLE) && SearchInvariant(IR_TABLE, 1098, 16, 17)
    ensures Search(IR_TABLE, 1098, 16, 17) == SearchState(17, 17, 16)
  {
    TableIsCalibration();
    SearchStepUp(IR_TABLE, 1098, 16, 17, 16);
  }

  /** ... from bounds 16 and 20: probe 18 (1098 itself) reads no higher, so
      the upper bound drops to 17. */
  lemma MisreadThirdProbe()
    ensures Calibration(IR_TABLE) && SearchInvariant(IR_TABLE, 1098, 16, 20)
    ensures Search(IR_TABLE, 1098, 16, 20) == SearchState(17, 17, 16)
  {
    TableIsCalibration();
    SearchStepUp(IR_TABLE, 1098, 11, 20, 15);
    SearchStepDown(IR_TABLE, 1098, 16, 20, 18);
    MisreadLastProbe();
  }

  /** ... from bounds 11 and 20: probe 15 reads higher. */
  lemma MisreadSecondProbe()
    ensures Calibration(IR_TABLE) && SearchInvariant(IR_TABLE, 1098, 11, 20)
    ensures Search(IR_TABLE, 1098, 11, 20) == SearchState(17, 17, 16)
  {
    TableIsCalibration();
    SearchStepUp(IR_TABLE, 1098, 0, 20, 10);
    SearchStepUp(IR_TABLE, 1098, 11, 20, 15);
    MisreadThirdProbe();
  }

  /** ... and from the start: probe 10 reads higher. */
  lemma MisreadSearch()
    ensures Calibration(IR_TABLE) && SearchInvariant(IR_TABLE, 1098, 0, 20)
    ensures Search(IR_TABLE, 1098, 0, 20) == SearchState(17, 17, 16)
  {
    TableIsCalibration();
    SearchStepUp(IR_TABLE, 1098, 0, 20, 10);
    MisreadSecondProbe();
  }

  /** A reading exactly equal to the 46 cm entry is reported as 44 cm: the
      search stops two entries short, and the single correction step, which
      measures the gap on the pair it started from, does not recover. */
  lemma ExactEntryMisread()
    ensures IR_TABLE[18] == 1098 && DistanceOf(18) == 46
    ensures IrDistance(1098) == 44
  {
    MisreadSearch();
    var st := SearchState(17, 17, 16);
    assert Adjust(IR_TABLE, 1098, st) == 17;
  }

  /** The nearest-entry lookup maps every table reading back to its own distance. */
  lemma ExactEntryRecovered(k: int)
    requires 0 <= k <= LAST
    ensures NearestIrDistance(IR_TABLE[k]) == DistanceOf(k)
  {
    TableIsCalibration();
    NearestOfEntry(IR_TABLE, k);
  }

  /** In a calibration table the nearest entry to an entry is itself. */
  lemma NearestOfEntry(t: seq<int>, k: int)
    requires Calibration(t) && 0 <= k <= LAST
    ensures NearestIndex(t, t[k]) == k
  {
    NearestIndexIsNearest(t, t[k]);
  }
}
