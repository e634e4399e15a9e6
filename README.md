# Street condition simulator: the simulation core in Dafny

This project models the engine of a street-condition forecast. A *segment* is a piece of
street with a length, a width, an area in square yards, a surface type and a street class.
It keeps a history of condition values (PCI): index 0 is the initial condition, and index
k is the condition at the end of simulated year k. It also keeps the years left on a
preventive-maintenance hold, and the condition a funded rehab will bring (0 when none is
pending).

A *streetcast* runs a scenario year by year. Each year it:

1. funds preventive maintenance from the year's preventive budget;
2. funds rehab from the year's rehab budget plus what the preventive pass left;
3. deteriorates every segment once;
4. records a condition hash (segid to latest condition) and an 18-column summary row.

Each pass takes the eligible segments and visits them sorted by latest condition or in a
random order. It skips a segment whose cost the remaining budget cannot cover and goes on
to the next.

Two modules, one per source file:

- `segment.dfy` (module `Segments`) models segment.rb.
  - The pure queries are functions on the datatype `SegmentValue`: costs, eligibility, the
    slope table, the quality categories and one deterioration step.
  - The class `Segment` holds the mutable state (history, hold, pending rehab condition).
    Each of its methods is proved to move its `Value()` as the matching function says.
- `streetcast.dfy` (module `Streetcasts`) models streetcast.rb.
  - Value-level functions specify a pass (`RunPass`), a year (`RunYearSpec`) and a whole
    run (`Simulate`). The lemmas about them carry the accounting, eligibility, ordering,
    counting and invariant proofs.
  - The class `Streetcast` updates its `Segment` objects in place through loops that
    mirror the source. Every method is proved to leave the segments, and to return, what
    those functions describe.

Randomness comes in as parameters:

- `rand(8 - 4)` for a hold and `rand(4)` for a rehab are a draw per segment, with the
  source's range as a precondition.
- `shuffle` is a permutation of all positions of the collection. The visit is the eligible
  segments in that order, which reaches every order of the candidates.
- `sort` visits the candidates by latest condition. `Array#sort` does not say how it orders
  equal conditions, so the same permutation breaks ties: the candidates are taken in its
  order and then sorted stably. Every ascending order of the candidates, with ties in any
  order, is reachable this way (`SortedVisitReachesEveryTieOrder`).

One `YearDraws` value holds a year's draws, and `run` takes one per year.

## Model

| member | source | states |
|---|---|---|
| Segments.Segment.constructor | segment.rb:36-49 | the history is `[initial_condition]`, the hold and the pending rehab condition are 0, the area is `(width*length)` divided by 9 rounded down, and the new segment is `Consistent` |
| Segments.AreaSqyd | segment.rb:40 | the area `a` satisfies `9a <= width*length < 9a + 9` (floor division) |
| Segments.PreventiveCost | segment.rb:73-75 | the preventive cost has the sign of the area: non-negative, or zero, exactly when the area is (that it never changes is `Streetcasts.CostIsFixed`) |
| Segments.RehabCost | segment.rb:104-106 | the rehab cost is 8/3 of the preventive cost, so it is never smaller for a non-negative area |
| Segments.PreventiveEligible | segment.rb:80-90 | a segment with a hold in force is never eligible, and an eligible one has a latest condition above the rehab range |
| Segments.RehabEligible | segment.rb:80-113 | a segment eligible for rehab (latest condition in [0, 50]) is never eligible for preventive maintenance (condition in [70, 80] and no hold) |
| Segments.WithPreventiveHold | segment.rb:94-96 | the hold becomes `rand(4) + 4`, in [4, 7], and nothing else changes |
| Segments.WithRehab | segment.rb:117-119 | the pending rehab condition becomes `99 - rand(4)`, in [96, 99], and nothing else changes |
| Segments.SurfaceRow | segment.rb:189-227 | only surface `'AC'` selects the asphalt rows; every other surface uses the concrete rows |
| Segments.ClassRow | segment.rb:191-214 | `'ART'` and `'COL'` select their rows; every other class uses the third row |
| Segments.Band | segment.rb:192-199 | the band tests are strict: 85, 65 and 40 fall in the lower band |
| Segments.DeductSlope | segment.rb:185-263 | the slope is the table cell for the segment's surface, class and condition band, so it lies in [0.68, 3.33] and is positive |
| Segments.Deteriorated | segment.rb:138-175 | a step appends exactly one condition and changes only the history, the hold and the pending rehab condition; the hold never increases and a non-negative hold stays non-negative |
| Segments.DeteriorationBranches | segment.rb:145-171 | each branch exactly. On hold: last - 0.5, the hold drops by one, pending untouched. Clamp: 0 is appended and pending stays set. Pending rehab: pending - slope/2, and pending is reset. Otherwise: last - slope |
| Segments.HistoryIsAppendOnly | segment.rb:138-175 | n steps grow the history by exactly n and never rewrite an earlier entry |
| Segments.ConsistencyIsInvariant | segment.rb:138-175 | a new segment is `Consistent` (non-negative hold, pending rehab 0 or in [96, 99], a hold never outlasting the condition margin), and deterioration, preventive maintenance on an eligible segment and rehab keep it so |
| Segments.HoldExcludesRepairs | segment.rb:145-147 | a consistent segment on hold has a condition above 66.5, so it is eligible for neither repair |
| Segments.ConditionStaysNonNegative | segment.rb:150-171 | from a non-negative condition a consistent segment never deteriorates below zero |
| Segments.RehabTakesEffect | segment.rb:158-165 | when the clamp does not fire, a funded rehab gives `(99 - draw) - slope/2`, strictly between 94 and 99, and clears the pending condition |
| Segments.FloorKeepsRehabPending | segment.rb:154-156 | the clamp is tested before the pending rehab, so a segment at 0 with no hold stays at 0 for ever and its pending rehab condition is never consumed |
| Segments.ProjectedBounds | segment.rb:129-135 | five years (any n) of slope-only decay lose between 0.68 and 3.33 a year |
| Segments.Segment.ConditionFiveYearsFromYear | segment.rb:129-135 | the loop returns the latest condition decayed five times with the slope of each year's condition and no clamp; the history is not changed |
| Segments.Segment.PerformPreventiveMaintenance | segment.rb:94-96 | the object's value becomes `WithPreventiveHold`; history and pending rehab are unchanged |
| Segments.Segment.PerformRehab | segment.rb:117-119 | the object's value becomes `WithRehab`; history and hold are unchanged |
| Segments.Segment.Deteriorate | segment.rb:138-175 | the object's value becomes `Deteriorated` of the old one: one condition appended, the old history kept as its prefix |
| Segments.OrderedLabels | segment.rb:272-274 | six distinct labels, listed worst to best in the order of the category type |
| Segments.Rank | segment.rb:272-274 | each category sits at its rank in `ordered_qualities` |
| Segments.Qualities | segment.rb:267-269 | a tally with every category at zero |
| Segments.QualityOf | segment.rb:277-292 | the rank of the category is the number of thresholds the condition reaches: above 90, at least 75, 65, 55, 40 |
| Segments.QualityIsMonotone | segment.rb:277-292 | a better condition never gets a worse category |
| Segments.QualityAt | segment.rb:277-278 | `quality(year)` of the latest year, or of -1, is the category of the latest condition |
| Streetcasts.YearsRun | streetcast.rb:51 | the number of turns of `years_to_simulate.times`: the count itself, or none when it is negative |
| Streetcasts.EligibleIndices | streetcast.rb:143-151 | `eligible_*` lists positions of the collection (its order and membership are `EligibleIndicesSpec`) |
| Streetcasts.EligibleIndicesSpec | streetcast.rb:143-151 | `eligible_*` keeps collection order (strictly increasing positions) and lists a position exactly when that segment is eligible |
| Streetcasts.SelectEligible | streetcast.rb:164-168 | the eligible members of a random order, as positions of the collection (what it keeps is `SelectEligibleCount`) |
| Streetcasts.SelectEligibleCount | streetcast.rb:164-168 | the shuffled candidates keep every eligible occurrence of the random order and drop every other |
| Streetcasts.SortByCondition | streetcast.rb:165 | `sort` by latest condition yields positions of the collection; it is a permutation (`SortIsPermutation`), ascending (`SortIsSorted`) and keeps sorted input as it is (`SortKeepsSorted`) |
| Streetcasts.SortIsPermutation | streetcast.rb:165 | sorting keeps the candidates with their multiplicities |
| Streetcasts.SortIsSorted | streetcast.rb:165 | the sorted candidates never decrease in latest condition along the visit |
| Streetcasts.InsertIsPermutation | streetcast.rb:165 | one insertion step adds exactly the inserted candidate |
| Streetcasts.InsertKeepsSorted | streetcast.rb:165 | one insertion step keeps the order by condition |
| Streetcasts.SortKeepsSorted | streetcast.rb:165 | candidates already in ascending order are visited in that order |
| Streetcasts.VisitOrder | streetcast.rb:164-168 | the visit of a pass lists positions of the collection: the candidates in the random order, sorted when the scenario says `:sort` |
| Streetcasts.VisitOrderIsPermutation | streetcast.rb:164-168 | sorted or shuffled, a pass visits exactly the segments eligible at its start, each once; sorted, in non-decreasing condition |
| Streetcasts.SortedVisitReachesEveryTieOrder | streetcast.rb:165 | every ascending order of the eligible segments, whatever it does with equal conditions, is the visit of a sorting pass for some random order |
| Streetcasts.Allocate | streetcast.rb:171-194 | the walk decides, for each visited candidate in turn, whether it is funded |
| Streetcasts.AllocateAccounting | streetcast.rb:171-194 | the count is the number funded, what is spent is the sum of the funded costs, budget left = start - spent, and a non-negative start is never overspent |
| Streetcasts.AllocatePrefix | streetcast.rb:178-192 | the decisions on the first k candidates do not depend on the later ones |
| Streetcasts.SkipOnlyWhenUnaffordable | streetcast.rb:181-183 | skip, not stop: the k-th candidate is funded exactly when the budget left after the first k covers its cost |
| Streetcasts.FundedCount | streetcast.rb:178-192 | with no candidate visited twice, the count is the number of distinct segments funded |
| Streetcasts.FundAt | streetcast.rb:186 | a funded segment gets the repair's effect with its own draw; every other segment is unchanged |
| Streetcasts.RunPass | streetcast.rb:161-226 | a pass leaves one state per segment (its effects are `PassFacts` and `PassKeepsSegments`) |
| Streetcasts.PassKeepsSegments | streetcast.rb:161-226 | a pass changes no segment's identity, attributes or history |
| Streetcasts.PassFundsOnlyEligible | streetcast.rb:164-168 | a pass funds only segments eligible at its start |
| Streetcasts.PassFacts | streetcast.rb:161-226 | a pass funds only eligible segments, each at most once, as many as it counts; funded segments get the effect, the rest are unchanged |
| Streetcasts.PassAccounting | streetcast.rb:171-194 | budget left = starting budget - spent; a non-negative start is never overspent |
| Streetcasts.YearAccounting | streetcast.rb:66-69 | the rehab pass starts from the rehab budget plus the preventive leftover; with non-negative budgets the year spends at most both budgets together and ends non-negative |
| Streetcasts.NoSegmentRepairedTwice | streetcast.rb:66-69 | no segment gets both repairs in one year |
| Streetcasts.RepairCost | streetcast.rb:133-139 | a segment adds its preventive cost when eligible for it, its rehab cost when eligible for rehab, and nothing else; with a non-negative area this lies between 0 and the rehab cost |
| Streetcasts.CurrentRepairCost | streetcast.rb:131-141 | with non-negative areas the current repair cost is non-negative |
| Streetcasts.CurrentRepairCostSplits | streetcast.rb:131-141 | the current repair cost is the cost of every preventive treatment plus every rehab the segments are eligible for, with no segment counted twice |
| Streetcasts.CountTally | streetcast.rb:76-92 | `quality_by_count` starts from a zero entry per category and keeps an entry for every category (what it counts is `CountTallyCounts`) |
| Streetcasts.LengthTally | streetcast.rb:73-91 | `quality_by_length` starts from a zero entry per category and keeps an entry for every category (what it adds is `LengthTallyMeasures`) |
| Streetcasts.CountsAddUp | streetcast.rb:86-93 | the category counts add up to the number of segments |
| Streetcasts.LengthsAddUp | streetcast.rb:86-93 | the category lengths add up to the total length |
| Streetcasts.CountTallyCounts | streetcast.rb:92 | `quality_by_count[q]` is the number of segments in category q for the year |
| Streetcasts.LengthTallyMeasures | streetcast.rb:91 | `quality_by_length[q]` is the total length of the segments in category q |
| Streetcasts.Put | streetcast.rb:89 | `hash[key] = value` on an insertion-ordered hash (its keys, entries and order are `PutKeys`, `PutEntries`, `PutUnique` and `PutNewKey`) |
| Streetcasts.PutKeys | streetcast.rb:89 | after `hash[key] = value` the keys are the old keys and the key |
| Streetcasts.PutEntries | streetcast.rb:89 | after `hash[key] = value` the key has the value and every other entry is kept |
| Streetcasts.PutUnique | streetcast.rb:89 | `hash[key] = value` never lists a key twice |
| Streetcasts.PutNewKey | streetcast.rb:89 | a new key is appended at the end, so insertion order is kept |
| Streetcasts.SnapshotOf | streetcast.rb:84-89 | the condition hash after the first n segments are stored (its keys and values are `SnapshotUnique`, `SnapshotKeys`, `SnapshotLatest`) |
| Streetcasts.Snapshot | streetcast.rb:84-93 | the condition hash after every segment is stored |
| Streetcasts.SnapshotUnique | streetcast.rb:84-93 | the condition hash lists no segid twice |
| Streetcasts.SnapshotKeys | streetcast.rb:84-93 | the condition hash lists exactly the segids of the segments |
| Streetcasts.SnapshotLatest | streetcast.rb:87-89 | a segid maps to the new latest condition of the last segment stored under it |
| Streetcasts.SnapshotOfDistinctIds | streetcast.rb:84-93 | with distinct segids the condition hash lists every segment with its new latest condition, in collection order |
| Streetcasts.SnapshotValues | streetcast.rb:99 | `conditions.values` lists the conditions in the hash's order |
| Streetcasts.PercentCells | streetcast.rb:111-117 | one percentage cell per category, each holding the category's count and the number of segments |
| Streetcasts.SummaryOf | streetcast.rb:95-118 | 12 fixed cells and one percentage cell per category; total budget is the preventive plus the rehab budget and total spent is the preventive plus the rehab cost |
| Streetcasts.SummaryKeys | streetcast.rb:236-238 | 18 headers, the first 12 the fixed fields |
| Streetcasts.SummaryKeysSwapCategories | streetcast.rb:237 | the written headers put "f" over the acceptable column and "a" over the fair column |
| Streetcasts.CorrectedSummaryKeys | streetcast.rb:237 | the headers whose category labels follow the order of the category columns |
| Streetcasts.SummaryMatchesCorrectedKeys | streetcast.rb:102-118 | the summary row has one cell per corrected header, each category column holds its own count, and the counts add up to the number of segments |
| Streetcasts.DeteriorateAll | streetcast.rb:86-87 | every segment deteriorates exactly once |
| Streetcasts.RunYearSpec | streetcast.rb:63-121 | every segment keeps its identity and attributes, and its history grows by exactly one entry |
| Streetcasts.YearKeepsConsistency | streetcast.rb:63-93 | segments that are `Consistent` at the start of a year are at its end |
| Streetcasts.Simulate | streetcast.rb:47-58 | `run` returns one condition hash and one summary row per year, and every history grows by exactly the number of years |
| Streetcasts.RunExtends | streetcast.rb:47-58 | a run changes no segment's identity or attributes and never rewrites a recorded condition |
| Streetcasts.CostIsFixed | segment.rb:73-106 | a repair's cost depends only on the area: a hold, a rehab or a year of deterioration leaves both costs unchanged |
| Streetcasts.RunKeepsCosts | streetcast.rb:47-58 | at the end of a run every segment's preventive and rehab costs are those it started with |
| Streetcasts.RunKeepsConsistency | streetcast.rb:47-58 | new segments stay `Consistent` for the whole run |
| Streetcasts.Streetcast.constructor | streetcast.rb:34-37 | the engine holds the given segments and scenario |
| Streetcasts.Streetcast.PerformRepair | streetcast.rb:186 | the repair changes the i-th segment by its effect and no other |
| Streetcasts.Streetcast.FundNext | streetcast.rb:178-192 | one turn of the walk: the candidate is skipped when unaffordable, otherwise repaired and expensed, as `Allocate` decides |
| Streetcasts.Streetcast.FundInOrder | streetcast.rb:178-192 | the loop returns `Allocate`'s budget, count and spent, and leaves exactly the funded segments changed by the repair |
| Streetcasts.Streetcast.RunPreventiveMaintenance | streetcast.rb:161-195 | the segments end as `RunPass` says, and the budget left, count and cost are the pass's |
| Streetcasts.Streetcast.RunRehabilitationProjects | streetcast.rb:199-226 | the same for the rehab pass, which starts from the rehab budget plus the leftover |
| Streetcasts.Streetcast.DeteriorateAt | streetcast.rb:87 | the i-th segment deteriorates once and no other changes |
| Streetcasts.Streetcast.Record | streetcast.rb:89-92 | one turn's bookkeeping extends the condition hash and both tallies by the segment |
| Streetcasts.Streetcast.DeteriorateAndRecord | streetcast.rb:86-93 | one turn of the deterioration loop moves the loop on by one segment |
| Streetcasts.Streetcast.DeteriorateAndTally | streetcast.rb:78-93 | every segment deteriorated once, the condition hash is the snapshot of the new states, and the tallies count the year's categories |
| Streetcasts.Streetcast.PercentRow | streetcast.rb:111-118 | one percentage cell per category, in the order of `qualities`, each from `quality_by_count` |
| Streetcasts.Streetcast.SummaryRow | streetcast.rb:95-118 | the 12 fixed cells (with total budget = p_bud + r_bud and total spent = p_cost + r_cost) followed by the percentage cells, as `SummaryOf` |
| Streetcasts.Streetcast.RunPasses | streetcast.rb:66-69 | the preventive pass, then the rehab pass starting from the preventive leftover, as the two `RunPass` terms say |
| Streetcasts.Streetcast.AdvanceYear | streetcast.rb:66-93 | the two passes and the deterioration loop, with its hash and tallies |
| Streetcasts.Streetcast.RunYear | streetcast.rb:63-121 | the segments, condition hash and summary row are those of `RunYearSpec` |
| Streetcasts.Streetcast.RunNextYear | streetcast.rb:51-55 | one turn of `run`'s loop: the next year is run and its hash and row appended, as `Simulate` says |
| Streetcasts.Streetcast.Run | streetcast.rb:47-58 | `run_year(1 .. years_to_simulate)` in order; states, hashes and rows are those of `Simulate` |

## Left out

- Mean and standard deviation of the year's conditions come from a foreign statistics
  library, and the standard deviation needs a square root. The summary row holds the
  list of conditions in `Mean` and `StandardDeviation` cells rather than the numbers.
- Percentages: `count.to_f / total * 100` rounded to two places is float arithmetic. A
  percentage cell holds the integer count and the number of segments. The NaN of an
  empty collection is therefore not modelled.
- Conditions and slopes are IEEE doubles in the source. Here they are exact reals, so
  results such as `80 - 3.33` are exact in the model.
- `rand` and `shuffle` are parameters (see above), not a generator.
- Scenario presets, the iteration count, `describe`, the command line and CSV import and
  export are not modelled. scenario.rb, run_sim.rb and importexport.rb are not part of
  this model. The scenario is a record with the fields the engine reads.
- Aliasing: the engine requires its segments to be distinct objects (`Distinct`). The
  source does not check this; with a segment listed twice it would repair or deteriorate
  it twice.
- Streetcasts.Streetcast.RunYear: requires a year of at least 1 within both budget lists,
  and a history long enough to classify the year. The source would index a budget with
  `year - 1` from the end, or fail on a missing condition.
- Streetcasts.Streetcast.Run: requires one preventive and one rehab budget, and one set of
  draws, for every simulated year (`RunFits`). The source does not check the lengths: with
  a shorter budget list, `budgets[year - 1]` is `nil` and the run raises when the budget
  is compared or added (streetcast.rb:171-181, streetcast.rb:201, streetcast.rb:102). Some
  preset scenarios hold a single preventive budget for a 20-year run and would raise in
  year 2. That error path is not modelled.
- The tie order of `sort`: the model admits every order of equal conditions (see above);
  the order the source's `Array#sort` happens to produce for a given input is not modelled.
- The constructor's defaults (`segments=[]`, `scenario=nil`, streetcast.rb:34) are not
  modelled: the model's constructor takes both. A `nil` scenario makes `run` raise.
- The passes read each candidate's cost once per turn. The source calls the cost method
  up to three times, but the cost depends only on the area, which the pass never changes.
- `quality_by_length` is computed (`Streetcast.Record`, `LengthTallyMeasures`) but, as in
  the source, it does not appear in the summary row.
- Choices a reader might not expect:
  - the area is `(width * length) / 9` with integer division, rounded down, because
    `.round` on an Integer does nothing (segment.rb:40);
  - `Array#sort` is not stable, so ties are left to the random order (see above);
  - the current repair cost uses the eligibility window 70 to 80, not the "75 to 85" of
    the comment at streetcast.rb:128.

## Findings

| source | as written | input that shows it | evidently intended | confidence | as-written member | corrected member |
|---|---|---|---|---|---|---|
| streetcast.rb:237 | `summary_keys` lists the category headers as `un, p, f, a, g, vg` | any year: column 15 of the row is the acceptable percentage (the keys of `qualities` are in the order unacceptable, poor, acceptable, fair, ...) but is headed "f" | headers `un, p, a, f, g, vg`, in the order of the category columns | high (not executed) | Streetcasts.SummaryKeysSwapCategories | Streetcasts.SummaryMatchesCorrectedKeys |
