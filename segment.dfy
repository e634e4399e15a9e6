/** One street segment: its fixed dimensions and categories, its condition history, the years
    left on a preventive-maintenance hold and the condition a funded rehab will bring
    (segment.rb). The queries are functions on the segment's value; the class Segment holds
    the state the source updates in place. */
module Segments {

  /** A condition history: index 0 is the initial condition, index k the condition at the
      end of simulated year k. It is never empty. */
  type History = s: seq<real> | |s| > 0 witness [0.0]

  // Constants that the source keeps outside the scenario.
  const PreventiveCutoffFirst: real := 70.0
  const PreventiveCutoffLast: real := 80.0
  const PreventiveHoldFirst: int := 4
  const PreventiveHoldLast: int := 8
  const RehabCutoffFirst: real := 0.0
  const RehabCutoffLast: real := 50.0
  const PreventiveCostSqyd: int := 3
  const RehabCostSqyd: int := 8
  /** A rehab brings the segment to RehabTopCondition minus a draw of rand(RehabDraws). */
  const RehabTopCondition: int := 99
  const RehabDraws: int := 4
  /** The decrement of a year spent on a preventive hold. */
  const HoldDecrement: real := 0.5

  /** The value of a segment: everything the source's Segment object holds. */
  datatype SegmentValue = SegmentValue(
    segid: int,
    length: int,
    width: int,
    areaSqyd: int,
    surfaceType: string,
    streetClass: string,
    conditions: History,
    holdYearsRemaining: int,
    postRehabCondition: int)

  /** The latest condition, `@conditions.last`. */
  function Last(v: SegmentValue): real
  {
    v.conditions[|v.conditions| - 1]
  }

  /** The area in square yards: integer division of width * length by 9, which floors. */
  function AreaSqyd(width: int, length: int): (a: int)
    ensures 9 * a <= width * length < 9 * a + 9
  {
    (width * length) / 9
  }

  function PreventiveCost(v: SegmentValue): (c: int)
    ensures c >= 0 <==> v.areaSqyd >= 0
    ensures c == 0 <==> v.areaSqyd == 0
  {
    v.areaSqyd * PreventiveCostSqyd
  }

  function RehabCost(v: SegmentValue): (c: int)
    ensures 3 * c == 8 * PreventiveCost(v)
    ensures v.areaSqyd >= 0 ==> c >= PreventiveCost(v)
  {
    v.areaSqyd * RehabCostSqyd
  }

  /** Preventive maintenance needs the latest condition in the closed range [70, 80] and no
      hold in force. */
  function PreventiveEligible(v: SegmentValue): (b: bool)
    ensures v.holdYearsRemaining != 0 ==> !b
    ensures b ==> RehabCutoffLast < Last(v)
  {
    PreventiveCutoffFirst <= Last(v) <= PreventiveCutoffLast && v.holdYearsRemaining == 0
  }

  /** Rehab needs the latest condition in the closed range [0, 50]; the two ranges are
      disjoint, so no segment is eligible for both. */
  function RehabEligible(v: SegmentValue): (b: bool)
    ensures b ==> !PreventiveEligible(v)
    ensures b ==> Last(v) < PreventiveCutoffFirst
  {
    RehabCutoffFirst <= Last(v) <= RehabCutoffLast
  }

  /** perform_preventive_maintenance: the hold becomes rand(8 - 4) + 4. */
  function WithPreventiveHold(v: SegmentValue, draw: int): (r: SegmentValue)
    requires 0 <= draw < PreventiveHoldLast - PreventiveHoldFirst
    ensures PreventiveHoldFirst <= r.holdYearsRemaining < PreventiveHoldLast
    ensures r.(holdYearsRemaining := v.holdYearsRemaining) == v
  {
    v.(holdYearsRemaining := draw + PreventiveHoldFirst)
  }

  /** perform_rehab: the pending condition becomes 99 - rand(4). */
  function WithRehab(v: SegmentValue, draw: int): (r: SegmentValue)
    requires 0 <= draw < RehabDraws
    ensures 96 <= r.postRehabCondition <= 99
    ensures r.(postRehabCondition := v.postRehabCondition) == v
  {
    v.(postRehabCondition := RehabTopCondition - draw)
  }

  // ---------------------------------------------------------------------------------------
  // Deterioration slopes

  /** The slope table by surface row (0 asphalt, 1 any other surface), class row (0 arterial,
      1 collector, 2 any other class) and condition band (0 above 85, 1 above 65, 2 above 40,
      3 the rest). */
  const SlopeTable: seq<seq<seq<real>>> := [
    [[1.5, 3.33, 2.78, 1.67], [1.15, 2.5, 2.27, 1.25], [0.94, 2.22, 1.92, 1.15]],
    [[0.83, 2.22, 1.47, 1.07], [0.75, 1.82, 1.39, 0.97], [0.68, 1.54, 1.04, 0.86]]
  ]

  function SurfaceRow(surfaceType: string): (row: nat)
    ensures row < 2 && (row == 0 <==> surfaceType == "AC")
  {
    if surfaceType == "AC" then 0 else 1
  }

  function ClassRow(streetClass: string): (row: nat)
    ensures row < 3
    ensures row == 0 <==> streetClass == "ART"
    ensures row == 1 <==> streetClass == "COL"
  {
    if streetClass == "ART" then 0 else if streetClass == "COL" then 1 else 2
  }

  /** The band of a condition; every boundary belongs to the lower band. */
  function Band(pci: real): (band: nat)
    ensures band < 4
    ensures band == 0 <==> pci > 85.0
    ensures band <= 1 <==> pci > 65.0
    ensures band <= 2 <==> pci > 40.0
  {
    if pci > 85.0 then 0 else if pci > 65.0 then 1 else if pci > 40.0 then 2 else 3
  }

  /** deduct_slope_for_pci: the yearly decrement for a segment of this surface and class at
      condition pci. Every value is a cell of the table, so the slope is always positive. */
  function DeductSlope(surfaceType: string, streetClass: string, pci: real): (slope: real)
    ensures slope == SlopeTable[SurfaceRow(surfaceType)][ClassRow(streetClass)][Band(pci)]
    ensures 0.68 <= slope <= 3.33
  {
    if surfaceType == "AC" then
      if streetClass == "ART" then
        if pci > 85.0 then 1.5 else if pci > 65.0 then 3.33 else if pci > 40.0 then 2.78 else 1.67
      else if streetClass == "COL" then
        if pci > 85.0 then 1.15 else if pci > 65.0 then 2.5 else if pci > 40.0 then 2.27 else 1.25
      else
        if pci > 85.0 then 0.94 else if pci > 65.0 then 2.22 else if pci > 40.0 then 1.92 else 1.15
    else
      if streetClass == "ART" then
        if pci > 85.0 then 0.83 else if pci > 65.0 then 2.22 else if pci > 40.0 then 1.47 else 1.07
      else if streetClass == "COL" then
        if pci > 85.0 then 0.75 else if pci > 65.0 then 1.82 else if pci > 40.0 then 1.39 else 0.97
      else
        if pci > 85.0 then 0.68 else if pci > 65.0 then 1.54 else if pci > 40.0 then 1.04 else 0.86
  }

  /** The slope of the segment at its latest condition. */
  function CurrentSlope(v: SegmentValue): real
  {
    DeductSlope(v.surfaceType, v.streetClass, Last(v))
  }

  // ---------------------------------------------------------------------------------------
  // One year of deterioration

  /** deteriorate: exactly one condition is appended, and only the history, the hold and the
      pending rehab condition can change; the hold never drops below zero. */
  function Deteriorated(v: SegmentValue): (r: SegmentValue)
    ensures r == v.(conditions := v.conditions + [Last(r)],
                    holdYearsRemaining := r.holdYearsRemaining,
                    postRehabCondition := r.postRehabCondition)
    ensures v.holdYearsRemaining >= 0 ==> r.holdYearsRemaining >= 0
    ensures r.holdYearsRemaining <= v.holdYearsRemaining
  {
    var current := Last(v);
    if v.holdYearsRemaining > 0 then
      v.(conditions := v.conditions + [current - HoldDecrement],
         holdYearsRemaining := v.holdYearsRemaining - 1)
    else
      var slope := DeductSlope(v.surfaceType, v.streetClass, current);
      if current - slope < 0.0 then
        v.(conditions := v.conditions + [0.0])
      else if v.postRehabCondition > 0 then
        v.(conditions := v.conditions + [v.postRehabCondition as real - slope / 2.0],
           postRehabCondition := 0)
      else
        v.(conditions := v.conditions + [current - slope])
  }

  /** The four branches of one deterioration step, each stated exactly. */
  lemma DeteriorationBranches(v: SegmentValue)
    ensures var r := Deteriorated(v);
            var slope := CurrentSlope(v);
            && (v.holdYearsRemaining > 0 ==>
                  Last(r) == Last(v) - 0.5
                  && r.holdYearsRemaining == v.holdYearsRemaining - 1
                  && r.postRehabCondition == v.postRehabCondition)
            && (v.holdYearsRemaining <= 0 && Last(v) - slope < 0.0 ==>
                  Last(r) == 0.0 && r.holdYearsRemaining == v.holdYearsRemaining
                  && r.postRehabCondition == v.postRehabCondition)
            && (v.holdYearsRemaining <= 0 && Last(v) - slope >= 0.0 && v.postRehabCondition > 0 ==>
                  Last(r) == v.postRehabCondition as real - slope / 2.0
                  && r.holdYearsRemaining == v.holdYearsRemaining && r.postRehabCondition == 0)
            && (v.holdYearsRemaining <= 0 && Last(v) - slope >= 0.0 && v.postRehabCondition <= 0 ==>
                  Last(r) == Last(v) - slope
                  && r.holdYearsRemaining == v.holdYearsRemaining
                  && r.postRehabCondition == v.postRehabCondition)
  {
  }

  /** n deterioration steps in a row. */
  function DeterioratedTimes(v: SegmentValue, n: nat): SegmentValue
  {
    if n == 0 then v else Deteriorated(DeterioratedTimes(v, n - 1))
  }

  /** The history only grows, by one entry a year, and what was recorded is never rewritten. */
  lemma {:induction false} HistoryIsAppendOnly(v: SegmentValue, n: nat)
    ensures |DeterioratedTimes(v, n).conditions| == |v.conditions| + n
    ensures DeterioratedTimes(v, n).conditions[..|v.conditions|] == v.conditions
  {
    if n > 0 {
      HistoryIsAppendOnly(v, n - 1);
      var before := DeterioratedTimes(v, n - 1);
      assert DeterioratedTimes(v, n).conditions == before.conditions + [Last(DeterioratedTimes(v, n))];
    }
  }

  // ---------------------------------------------------------------------------------------
  // The states the segment can reach

  /** What construction, maintenance and deterioration keep true of a segment: the hold is
      not negative; a pending rehab condition is 0 (none) or in [96, 99]; and while a hold is
      in force the condition is high enough that the hold ends above 66.5, because a hold of
      at most 7 years starts at a condition of at least 70 and costs 0.5 a year. */
  predicate Consistent(v: SegmentValue)
  {
    && v.holdYearsRemaining >= 0
    && (v.postRehabCondition == 0
        || RehabTopCondition - RehabDraws < v.postRehabCondition <= RehabTopCondition)
    && (v.holdYearsRemaining > 0 ==>
          Last(v) - HoldDecrement * v.holdYearsRemaining as real
            >= PreventiveCutoffFirst - HoldDecrement * (PreventiveHoldLast - 1) as real)
  }

  /** Consistent holds of a new segment and is kept by every operation the engine applies. */
  lemma ConsistencyIsInvariant(v: SegmentValue, draw: int)
    ensures v.holdYearsRemaining == 0 && v.postRehabCondition == 0 ==> Consistent(v)
    ensures Consistent(v) ==> Consistent(Deteriorated(v))
    ensures (Consistent(v) && PreventiveEligible(v)
             && 0 <= draw < PreventiveHoldLast - PreventiveHoldFirst)
            ==> Consistent(WithPreventiveHold(v, draw))
    ensures Consistent(v) && 0 <= draw < RehabDraws ==> Consistent(WithRehab(v, draw))
  {
  }

  /** A segment on hold is eligible for neither repair, so preventive maintenance and rehab
      never meet: the hold branch of deterioration never has a pending rehab to apply that
      was funded while the hold was in force. */
  lemma HoldExcludesRepairs(v: SegmentValue)
    requires Consistent(v) && v.holdYearsRemaining > 0
    ensures !RehabEligible(v) && !PreventiveEligible(v)
    ensures Last(v) > 66.5
  {
  }

  /** From a non-negative condition, a consistent segment never deteriorates below zero. */
  lemma ConditionStaysNonNegative(v: SegmentValue)
    requires Consistent(v) && Last(v) >= 0.0
    ensures Last(Deteriorated(v)) >= 0.0
  {
  }

  /** A rehab funded this year takes effect at this year's step unless the floor clamp fires:
      half a year of decay from the new condition, after which nothing is pending. */
  lemma RehabTakesEffect(v: SegmentValue, draw: int)
    requires Consistent(v) && RehabEligible(v) && 0 <= draw < RehabDraws
    requires Last(v) >= CurrentSlope(v)
    ensures var r := Deteriorated(WithRehab(v, draw));
            && Last(r) == (RehabTopCondition - draw) as real - CurrentSlope(v) / 2.0
            && 94.0 < Last(r) < 99.0
            && r.postRehabCondition == 0
  {
  }

  /** The floor clamp is tested before the pending rehab, so a segment at condition 0 keeps
      its pending rehab condition unapplied and stays at 0 for every later year. */
  lemma {:induction false} FloorKeepsRehabPending(v: SegmentValue, n: nat)
    requires v.holdYearsRemaining == 0 && Last(v) == 0.0
    ensures Last(DeterioratedTimes(v, n)) == 0.0
    ensures DeterioratedTimes(v, n).postRehabCondition == v.postRehabCondition
    ensures DeterioratedTimes(v, n).holdYearsRemaining == 0
  {
    if n > 0 {
      FloorKeepsRehabPending(v, n - 1);
    }
  }

  // ---------------------------------------------------------------------------------------
  // Projection without maintenance

  /** The condition of v after n years of slope-only decay from its latest condition: no
      hold, no rehab and no floor at 0. */
  function Projected(v: SegmentValue, n: nat): real
  {
    if n == 0 then Last(v)
    else
      var before := Projected(v, n - 1);
      before - DeductSlope(v.surfaceType, v.streetClass, before)
  }

  /** Each projected year costs between the smallest and the largest slope of the table. */
  lemma {:induction false} ProjectedBounds(v: SegmentValue, n: nat)
    ensures Last(v) - 3.33 * n as real <= Projected(v, n) <= Last(v) - 0.68 * n as real
  {
    if n > 0 {
      ProjectedBounds(v, n - 1);
    }
  }

  // ---------------------------------------------------------------------------------------
  // Condition categories

  datatype Quality = Unacceptable | Poor | Acceptable | Fair | Good | VeryGood

  /** The categories from worst to best, the order of `ordered_qualities` and of the keys of
      `qualities`. */
  const OrderedQualities: seq<Quality> := [Unacceptable, Poor, Acceptable, Fair, Good, VeryGood]

  function Label(q: Quality): string
  {
    match q
    case Unacceptable => "unacceptable"
    case Poor => "poor"
    case Acceptable => "acceptable"
    case Fair => "fair"
    case Good => "good"
    case VeryGood => "very good"
  }

  /** ordered_qualities: the labels of the categories from worst to best, all different. */
  function OrderedLabels(): (labels: seq<string>)
    ensures |labels| == |OrderedQualities|
    ensures forall k :: 0 <= k < |labels| ==> labels[k] == Label(OrderedQualities[k])
    ensures forall j, k :: 0 <= j < k < |labels| ==> labels[j] != labels[k]
  {
    ["unacceptable", "poor", "acceptable", "fair", "good", "very good"]
  }

  /** The position of a category in OrderedQualities. */
  function Rank(q: Quality): (r: nat)
    ensures r < |OrderedQualities| && OrderedQualities[r] == q
  {
    match q
    case Unacceptable => 0
    case Poor => 1
    case Acceptable => 2
    case Fair => 3
    case Good => 4
    case VeryGood => 5
  }

  /** qualities: a tally holding every category, each at zero. */
  function Qualities(): (tally: map<Quality, int>)
    ensures forall q: Quality :: q in OrderedQualities ==> q in tally
    ensures forall q :: q in tally ==> tally[q] == 0
  {
    map q | q in OrderedQualities :: 0
  }

  /** The category of a condition, tested from the top: the rank is the number of thresholds
      the condition reaches (strictly above 90 for the best, at least 75, 65, 55, 40 for the
      others). */
  function QualityOf(pci: real): (q: Quality)
    ensures Rank(q) == (if pci > 90.0 then 1 else 0) + (if pci >= 75.0 then 1 else 0)
                       + (if pci >= 65.0 then 1 else 0) + (if pci >= 55.0 then 1 else 0)
                       + (if pci >= 40.0 then 1 else 0)
  {
    if pci > 90.0 then VeryGood
    else if pci >= 75.0 then Good
    else if pci >= 65.0 then Fair
    else if pci >= 55.0 then Acceptable
    else if pci >= 40.0 then Poor
    else Unacceptable
  }

  /** A better condition never has a worse category. */
  lemma QualityIsMonotone(p: real, q: real)
    requires p <= q
    ensures Rank(QualityOf(p)) <= Rank(QualityOf(q))
  {
  }

  /** quality(year): the category of the condition recorded for the year; a negative year
      counts from the end of the history, as a Ruby array index does. */
  function QualityAt(v: SegmentValue, year: int): (q: Quality)
    requires -|v.conditions| <= year < |v.conditions|
    ensures year == -1 || year == |v.conditions| - 1 ==> q == QualityOf(Last(v))
  {
    QualityOf(v.conditions[if year < 0 then |v.conditions| + year else year])
  }

  // ---------------------------------------------------------------------------------------
  // The object

  class Segment {
    const segid: int
    const length: int
    const width: int
    const areaSqyd: int
    const surfaceType: string
    const streetClass: string
    var conditions: History
    var holdYearsRemaining: int
    var postRehabCondition: int

    /** The whole state of the object as a value. */
    function Value(): SegmentValue
      reads this
    {
      SegmentValue(segid, length, width, areaSqyd, surfaceType, streetClass,
                   conditions, holdYearsRemaining, postRehabCondition)
    }

    constructor (segmentid: int, initialCondition: real, length: int, width: int,
                 surfaceType: string, streetClass: string)
      ensures Value() == SegmentValue(segmentid, length, width, AreaSqyd(width, length),
                                      surfaceType, streetClass, [initialCondition], 0, 0)
      ensures 9 * areaSqyd <= width * length < 9 * areaSqyd + 9
      ensures Consistent(Value())
    {
      this.segid := segmentid;
      this.length := length;
      this.width := width;
      this.areaSqyd := AreaSqyd(width, length);
      this.surfaceType := surfaceType;
      this.streetClass := streetClass;
      holdYearsRemaining := 0;
      postRehabCondition := 0;
      conditions := [initialCondition];
    }

    /** Starts a hold of 4 to 7 years; draw stands for rand(8 - 4). */
    method PerformPreventiveMaintenance(draw: int)
      requires 0 <= draw < PreventiveHoldLast - PreventiveHoldFirst
      modifies this
      ensures Value() == WithPreventiveHold(old(Value()), draw)
      ensures PreventiveHoldFirst <= holdYearsRemaining < PreventiveHoldLast
      ensures conditions == old(conditions) && postRehabCondition == old(postRehabCondition)
    {
      holdYearsRemaining := draw + PreventiveHoldFirst;
    }

    /** Sets the pending condition to 96 to 99; draw stands for rand(4). */
    method PerformRehab(draw: int)
      requires 0 <= draw < RehabDraws
      modifies this
      ensures Value() == WithRehab(old(Value()), draw)
      ensures 96 <= postRehabCondition <= 99
      ensures conditions == old(conditions) && holdYearsRemaining == old(holdYearsRemaining)
    {
      postRehabCondition := RehabTopCondition - draw;
    }

    /** One year of deterioration. */
    method Deteriorate()
      modifies this
      ensures Value() == Deteriorated(old(Value()))
      ensures |conditions| == |old(conditions)| + 1
      ensures conditions[..|old(conditions)|] == old(conditions)
    {
      var currentPci := conditions[|conditions| - 1];
      if holdYearsRemaining > 0 {
        conditions := conditions + [currentPci - HoldDecrement];
        holdYearsRemaining := holdYearsRemaining - 1;
      } else {
        var slope := DeductSlope(surfaceType, streetClass, currentPci);
        if currentPci - slope < 0.0 {
          conditions := conditions + [0.0];
        } else if postRehabCondition > 0 {
          conditions := conditions + [postRehabCondition as real - slope / 2.0];
          postRehabCondition := 0;
        } else {
          conditions := conditions + [currentPci - slope];
        }
      }
    }

    /** The latest condition after five years of slope-only decay; the history is left as
        it is. The year argument is accepted and not used, as in the source. */
    method ConditionFiveYearsFromYear(year: int) returns (condition: real)
      ensures condition == Projected(Value(), 5)
      ensures Last(Value()) - 5.0 * 3.33 <= condition <= Last(Value()) - 5.0 * 0.68
    {
      condition := conditions[|conditions| - 1];
      var i := 0;
      while i < 5
        invariant 0 <= i <= 5
        invariant condition == Projected(Value(), i)
      {
        condition := condition - DeductSlope(surfaceType, streetClass, condition);
        i := i + 1;
      }
      ProjectedBounds(Value(), 5);
    }
  }
}
