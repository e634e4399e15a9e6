/** The forecast engine (streetcast.rb): for each simulated year, a preventive pass and a rehab
    pass spend that year's budgets on eligible segments, every segment then deteriorates once,
    and the year's condition snapshot and summary row are assembled. The value-level
    functions below specify a year and a whole run; the class Streetcast does the same work
    on Segment objects and is proved to agree with them. */
module Streetcasts {
  import opened Segments

  /** How a pass orders its candidates: by latest condition, worst first, or at random. The
      source sorts when the scenario says :sort and shuffles for any other value. */
  datatype SelectionMethod = Sort | Shuffle

  /** The part of a scenario the engine reads. */
  datatype Scenario = Scenario(
    yearsToSimulate: int,
    preventiveSelectionMethod: SelectionMethod,
    rehabSelectionMethod: SelectionMethod,
    preventiveBudgets: seq<int>,
    rehabBudgets: seq<int>)

  /** The number of years `yearsToSimulate.times` runs. */
  function YearsRun(sc: Scenario): nat
  {
    if sc.yearsToSimulate < 0 then 0 else sc.yearsToSimulate
  }

  /** The two repair types; the passes for them follow the same protocol. */
  datatype Repair = Preventive | Rehab

  function Eligible(kind: Repair, v: SegmentValue): bool
  {
    match kind
    case Preventive => PreventiveEligible(v)
    case Rehab => RehabEligible(v)
  }

  function Cost(kind: Repair, v: SegmentValue): int
  {
    match kind
    case Preventive => PreventiveCost(v)
    case Rehab => RehabCost(v)
  }

  /** The number of values the random draw of a repair can take. */
  function DrawCount(kind: Repair): int
  {
    match kind
    case Preventive => PreventiveHoldLast - PreventiveHoldFirst
    case Rehab => RehabDraws
  }

  predicate DrawsInRange(kind: Repair, draws: seq<int>)
  {
    forall k :: 0 <= k < |draws| ==> 0 <= draws[k] < DrawCount(kind)
  }

  /** The effect of funding a segment. */
  function Perform(kind: Repair, v: SegmentValue, draw: int): SegmentValue
    requires 0 <= draw < DrawCount(kind)
  {
    match kind
    case Preventive => WithPreventiveHold(v, draw)
    case Rehab => WithRehab(v, draw)
  }

  // ---------------------------------------------------------------------------------------
  // Candidates and the order they are visited in

  /** Every element is a position in a collection of n segments. */
  predicate IndicesIn(s: seq<nat>, n: nat)
  {
    forall k :: 0 <= k < |s| ==> s[k] < n
  }

  predicate StrictlyIncreasing(s: seq<nat>)
  {
    forall j, k :: 0 <= j < k < |s| ==> s[j] < s[k]
  }

  predicate NoDuplicates(s: seq<nat>)
  {
    forall j, k :: 0 <= j < k < |s| ==> s[j] != s[k]
  }

  /** A random order of the whole collection: each position 0 .. n-1 occurs exactly once,
      and nothing else occurs. */
  ghost predicate IsPermutation(order: seq<nat>, n: nat)
  {
    forall x: nat :: multiset(order)[x] == if x < n then 1 else 0
  }

  lemma PermutationIndices(order: seq<nat>, n: nat)
    requires IsPermutation(order, n)
    ensures IndicesIn(order, n)
  {
    forall k | 0 <= k < |order|
      ensures order[k] < n
    {
      assert order[k] in multiset(order);
    }
  }

  /** eligible_preventives and eligible_rehabs: the segments eligible for the repair, by
      position in collection order. */
  function EligibleIndices(vals: seq<SegmentValue>, kind: Repair): (r: seq<nat>)
    ensures IndicesIn(r, |vals|)
  {
    if vals == [] then []
    else
      var n := |vals|;
      var rest := EligibleIndices(vals[..n - 1], kind);
      if Eligible(kind, vals[n - 1]) then rest + [n - 1] else rest
  }

  /** The eligible positions are listed in increasing order, and a position is listed exactly
      when the segment there is eligible. */
  lemma {:induction false} EligibleIndicesSpec(vals: seq<SegmentValue>, kind: Repair)
    ensures StrictlyIncreasing(EligibleIndices(vals, kind))
    ensures forall i: nat :: i in EligibleIndices(vals, kind) <==> i < |vals| && Eligible(kind, vals[i])
  {
    if vals != [] {
      var n := |vals|;
      EligibleIndicesSpec(vals[..n - 1], kind);
      assert forall i :: 0 <= i < n - 1 ==> vals[..n - 1][i] == vals[i];
    }
  }

  /** The members of order that are eligible for the repair, in the order given: the
      candidates of a shuffled pass, when order is a random order of the collection. */
  function SelectEligible(vals: seq<SegmentValue>, kind: Repair, order: seq<nat>): (r: seq<nat>)
    requires IndicesIn(order, |vals|)
    ensures IndicesIn(r, |vals|)
  {
    if order == [] then []
    else
      var n := |order|;
      var rest := SelectEligible(vals, kind, order[..n - 1]);
      if Eligible(kind, vals[order[n - 1]]) then rest + [order[n - 1]] else rest
  }

  /** SelectEligible keeps every eligible occurrence and drops every other. */
  lemma {:induction false} SelectEligibleCount(vals: seq<SegmentValue>, kind: Repair, order: seq<nat>, x: nat)
    requires IndicesIn(order, |vals|)
    ensures multiset(SelectEligible(vals, kind, order))[x]
            == if x < |vals| && Eligible(kind, vals[x]) then multiset(order)[x] else 0
  {
    if order == [] {
    } else {
      var n := |order|;
      SelectEligibleCount(vals, kind, order[..n - 1], x);
      assert order == order[..n - 1] + [order[n - 1]];
    }
  }

  /** A strictly increasing sequence holds each value at most once. */
  lemma {:induction false} AtMostOnce(t: seq<nat>, x: nat)
    requires StrictlyIncreasing(t)
    ensures multiset(t)[x] <= 1
  {
    if t != [] {
      var n := |t|;
      assert t == t[..n - 1] + [t[n - 1]];
      AtMostOnce(t[..n - 1], x);
      if t[n - 1] == x {
        assert x !in t[..n - 1];
      }
    }
  }

  /** A sequence with the elements of a strictly increasing one has no duplicates. */
  lemma NoDuplicatesFromMultiset(s: seq<nat>, t: seq<nat>)
    requires multiset(s) == multiset(t) && StrictlyIncreasing(t)
    ensures NoDuplicates(s)
  {
    forall j, k | 0 <= j < k < |s| ensures s[j] != s[k] {
      if s[j] == s[k] {
        var x := s[j];
        assert s == s[..k] + [s[k]] + s[k + 1..];
        assert x in multiset(s[..k]);
        AtMostOnce(t, x);
        assert false;
      }
    }
  }

  /** Ordered by latest condition, worst first: no segment has a better condition than the
      one visited after it. */
  predicate SortedByCondition(vals: seq<SegmentValue>, s: seq<nat>)
    requires IndicesIn(s, |vals|)
  {
    forall k :: 0 < k < |s| ==> Last(vals[s[k - 1]]) <= Last(vals[s[k]])
  }

  function InsertByCondition(vals: seq<SegmentValue>, x: nat, s: seq<nat>): (r: seq<nat>)
    requires x < |vals| && IndicesIn(s, |vals|)
    ensures IndicesIn(r, |vals|)
  {
    if s == [] then [x]
    else if Last(vals[x]) <= Last(vals[s[0]]) then [x] + s
    else [s[0]] + InsertByCondition(vals, x, s[1..])
  }

  /** Inserting adds x and keeps every other element. */
  lemma {:induction false} InsertIsPermutation(vals: seq<SegmentValue>, x: nat, s: seq<nat>)
    requires x < |vals| && IndicesIn(s, |vals|)
    ensures multiset(InsertByCondition(vals, x, s)) == multiset(s) + multiset{x}
  {
    if s != [] && Last(vals[x]) > Last(vals[s[0]]) {
      InsertIsPermutation(vals, x, s[1..]);
      assert s == [s[0]] + s[1..];
    }
  }

  lemma {:induction false} InsertKeepsSorted(vals: seq<SegmentValue>, x: nat, s: seq<nat>)
    requires x < |vals| && IndicesIn(s, |vals|) && SortedByCondition(vals, s)
    ensures SortedByCondition(vals, InsertByCondition(vals, x, s))
  {
    if s != [] && Last(vals[x]) > Last(vals[s[0]]) {
      var rest := s[1..];
      var tail := InsertByCondition(vals, x, rest);
      InsertKeepsSorted(vals, x, rest);
      assert tail[0] == x || tail[0] == s[1];
      var r := [s[0]] + tail;
      forall k | 0 < k < |r| ensures Last(vals[r[k - 1]]) <= Last(vals[r[k]]) {
        if k > 1 {
          assert r[k - 1] == tail[k - 2] && r[k] == tail[k - 1];
        }
      }
    }
  }

  /** The `sort` of a pass: a permutation of s ordered by latest condition. Equal conditions
      keep their order in s, so the caller decides how ties fall. */
  function SortByCondition(vals: seq<SegmentValue>, s: seq<nat>): (r: seq<nat>)
    requires IndicesIn(s, |vals|)
    ensures IndicesIn(r, |vals|)
  {
    if s == [] then []
    else InsertByCondition(vals, s[0], SortByCondition(vals, s[1..]))
  }

  /** Sorting keeps the elements with their multiplicities. */
  lemma {:induction false} SortIsPermutation(vals: seq<SegmentValue>, s: seq<nat>)
    requires IndicesIn(s, |vals|)
    ensures multiset(SortByCondition(vals, s)) == multiset(s)
  {
    if s != [] {
      var t := SortByCondition(vals, s[1..]);
      calc {
        multiset(SortByCondition(vals, s));
        multiset(InsertByCondition(vals, s[0], t));
        { InsertIsPermutation(vals, s[0], t); }
        multiset(t) + multiset{s[0]};
        { SortIsPermutation(vals, s[1..]); }
        multiset(s[1..]) + multiset{s[0]};
        { assert s == [s[0]] + s[1..]; }
        multiset(s);
      }
    }
  }

  lemma {:induction false} SortIsSorted(vals: seq<SegmentValue>, s: seq<nat>)
    requires IndicesIn(s, |vals|)
    ensures SortedByCondition(vals, SortByCondition(vals, s))
  {
    if s != [] {
      SortIsSorted(vals, s[1..]);
      InsertKeepsSorted(vals, s[0], SortByCondition(vals, s[1..]));
    }
  }

  /** The candidates of a pass in the order they are visited: the eligible segments in the
      order of a random order of the collection, sorted by latest condition when the pass
      sorts. `Array#sort` does not say how it orders equal conditions; here the random order
      breaks ties, and SortedVisitReachesEveryTieOrder shows that every tie order can occur. */
  function VisitOrder(vals: seq<SegmentValue>, kind: Repair, method_: SelectionMethod,
                      order: seq<nat>): (visit: seq<nat>)
    requires IsPermutation(order, |vals|)
    ensures IndicesIn(visit, |vals|)
  {
    PermutationIndices(order, |vals|);
    var shuffled := SelectEligible(vals, kind, order);
    if method_ == Sort then SortByCondition(vals, shuffled) else shuffled
  }

  /** Either way the pass visits every segment eligible at its start exactly once and no
      other; sorted, the conditions never decrease along the visit. */
  lemma VisitOrderIsPermutation(vals: seq<SegmentValue>, kind: Repair, method_: SelectionMethod,
                                order: seq<nat>)
    requires IsPermutation(order, |vals|)
    ensures var visit := VisitOrder(vals, kind, method_, order);
            && multiset(visit) == multiset(EligibleIndices(vals, kind))
            && NoDuplicates(visit)
            && (forall k :: 0 <= k < |visit| ==> Eligible(kind, vals[visit[k]]))
            && (method_ == Sort ==> SortedByCondition(vals, visit))
  {
    var visit: seq<nat> := VisitOrder(vals, kind, method_, order);
    var candidates: seq<nat> := EligibleIndices(vals, kind);
    PermutationIndices(order, |vals|);
    EligibleIndicesSpec(vals, kind);
    var shuffled: seq<nat> := SelectEligible(vals, kind, order);
    forall x: nat ensures multiset(shuffled)[x] == multiset(candidates)[x] {
      SelectEligibleCount(vals, kind, order, x);
      AtMostOnce(candidates, x);
      if x < |vals| && Eligible(kind, vals[x]) {
        assert x in candidates;
      } else {
        assert x !in candidates;
      }
    }
    assert multiset(shuffled) == multiset(candidates);
    if method_ == Sort {
      SortIsSorted(vals, shuffled);
      SortIsPermutation(vals, shuffled);
    }
    forall k | 0 <= k < |visit| ensures Eligible(kind, vals[visit[k]]) {
      assert visit[k] in multiset(candidates);
    }
    NoDuplicatesFromMultiset(visit, candidates);
  }

  /** Sorting what is already sorted changes nothing. */
  lemma {:induction false} SortKeepsSorted(vals: seq<SegmentValue>, s: seq<nat>)
    requires IndicesIn(s, |vals|) && SortedByCondition(vals, s)
    ensures SortByCondition(vals, s) == s
  {
    if s != [] {
      SortKeepsSorted(vals, s[1..]);
      assert s == [s[0]] + s[1..];
    }
  }

  /** The segments not eligible for the repair, by position in collection order. */
  function IneligibleIndices(vals: seq<SegmentValue>, kind: Repair): (r: seq<nat>)
    ensures IndicesIn(r, |vals|)
  {
    if vals == [] then []
    else
      var n := |vals|;
      var rest := IneligibleIndices(vals[..n - 1], kind);
      if Eligible(kind, vals[n - 1]) then rest else rest + [n - 1]
  }

  lemma {:induction false} IneligibleIndicesSpec(vals: seq<SegmentValue>, kind: Repair)
    ensures StrictlyIncreasing(IneligibleIndices(vals, kind))
    ensures forall i: nat :: i in IneligibleIndices(vals, kind) <==> i < |vals| && !Eligible(kind, vals[i])
  {
    if vals != [] {
      var n := |vals|;
      IneligibleIndicesSpec(vals[..n - 1], kind);
      assert forall i :: 0 <= i < n - 1 ==> vals[..n - 1][i] == vals[i];
    }
  }

  /** Selecting from a concatenation selects from each part. */
  lemma {:induction false} SelectAppend(vals: seq<SegmentValue>, kind: Repair, a: seq<nat>, b: seq<nat>)
    requires IndicesIn(a, |vals|) && IndicesIn(b, |vals|)
    ensures SelectEligible(vals, kind, a + b)
            == SelectEligible(vals, kind, a) + SelectEligible(vals, kind, b)
  {
    if b == [] {
      assert a + b == a;
    } else {
      var n := |b|;
      SelectAppend(vals, kind, a, b[..n - 1]);
      assert (a + b)[..|a + b| - 1] == a + b[..n - 1];
    }
  }

  /** Selection keeps all of a sequence of eligible segments and none of a sequence of
      ineligible ones. */
  lemma {:induction false} SelectAllOrNone(vals: seq<SegmentValue>, kind: Repair, s: seq<nat>, all: bool)
    requires IndicesIn(s, |vals|)
    requires forall k :: 0 <= k < |s| ==> Eligible(kind, vals[s[k]]) == all
    ensures SelectEligible(vals, kind, s) == if all then s else []
  {
    if s != [] {
      var n := |s|;
      SelectAllOrNone(vals, kind, s[..n - 1], all);
      assert s == s[..n - 1] + [s[n - 1]];
    }
  }

  /** The candidates, in any order, followed by the other segments form a random order of
      the collection. */
  lemma CandidatesThenOthers(vals: seq<SegmentValue>, kind: Repair, s: seq<nat>)
    requires multiset(s) == multiset(EligibleIndices(vals, kind))
    ensures IsPermutation(s + IneligibleIndices(vals, kind), |vals|)
  {
    var candidates: seq<nat> := EligibleIndices(vals, kind);
    var rest: seq<nat> := IneligibleIndices(vals, kind);
    EligibleIndicesSpec(vals, kind);
    IneligibleIndicesSpec(vals, kind);
    forall x: nat ensures multiset(s + rest)[x] == if x < |vals| then 1 else 0 {
      AtMostOnce(candidates, x);
      AtMostOnce(rest, x);
      if x < |vals| && Eligible(kind, vals[x]) {
        assert x in candidates && x !in rest;
      } else if x < |vals| {
        assert x !in candidates && x in rest;
      } else {
        assert x !in candidates && x !in rest;
      }
    }
  }

  /** From the candidates followed by the other segments, selection keeps the candidates. */
  lemma SelectCandidatesFirst(vals: seq<SegmentValue>, kind: Repair, s: seq<nat>)
    requires IndicesIn(s, |vals|)
    requires multiset(s) == multiset(EligibleIndices(vals, kind))
    ensures SelectEligible(vals, kind, s + IneligibleIndices(vals, kind)) == s
  {
    var rest: seq<nat> := IneligibleIndices(vals, kind);
    EligibleIndicesSpec(vals, kind);
    forall k | 0 <= k < |s| ensures Eligible(kind, vals[s[k]]) {
      assert s[k] in multiset(EligibleIndices(vals, kind));
    }
    SelectAllOrNone(vals, kind, s, true);
    IneligibleIndicesSpec(vals, kind);
    forall k | 0 <= k < |rest| ensures !Eligible(kind, vals[rest[k]]) {
      assert rest[k] in rest;
    }
    SelectAllOrNone(vals, kind, rest, false);
    SelectAppend(vals, kind, s, rest);
  }

  /** Every ascending order of the candidates, however it orders equal conditions, is the
      visit of a sorting pass for some random order: the model does not fix how ties fall. */
  lemma SortedVisitReachesEveryTieOrder(vals: seq<SegmentValue>, kind: Repair, s: seq<nat>)
    requires IndicesIn(s, |vals|) && SortedByCondition(vals, s)
    requires multiset(s) == multiset(EligibleIndices(vals, kind))
    ensures exists order :: IsPermutation(order, |vals|) && VisitOrder(vals, kind, Sort, order) == s
  {
    var order: seq<nat> := s + IneligibleIndices(vals, kind);
    CandidatesThenOthers(vals, kind, s);
    SelectCandidatesFirst(vals, kind, s);
    SortKeepsSorted(vals, s);
    assert VisitOrder(vals, kind, Sort, order) == s;
  }

  // ---------------------------------------------------------------------------------------
  // Walking the candidates with a running budget

  /** The outcome of a pass: for each visited candidate whether it was funded, the budget
      left, the number funded and the amount spent. */
  datatype Allocation = Allocation(taken: seq<bool>, budget: int, count: int, spent: int)

  function CountTaken(taken: seq<bool>): nat
  {
    if taken == [] then 0
    else CountTaken(taken[..|taken| - 1]) + (if taken[|taken| - 1] then 1 else 0)
  }

  /** The sum of the costs of the visited candidates that were funded. */
  function FundedCost(costs: seq<int>, visit: seq<nat>, taken: seq<bool>): int
    requires |taken| == |visit| && IndicesIn(visit, |costs|)
  {
    if visit == [] then 0
    else
      var n := |visit|;
      FundedCost(costs, visit[..n - 1], taken[..n - 1]) + (if taken[n - 1] then costs[visit[n - 1]] else 0)
  }

  /** The loop of a pass: a candidate the remaining budget cannot cover is skipped and the
      walk goes on; otherwise its cost is deducted. */
  function Allocate(costs: seq<int>, visit: seq<nat>, start: int): (a: Allocation)
    requires IndicesIn(visit, |costs|)
    ensures |a.taken| == |visit|
  {
    if visit == [] then Allocation([], start, 0, 0)
    else
      var n := |visit|;
      var before := Allocate(costs, visit[..n - 1], start);
      var cost := costs[visit[n - 1]];
      var taken := before.taken + [before.budget >= cost];
      if before.budget < cost then
        Allocation(taken, before.budget, before.count, before.spent)
      else
        Allocation(taken, before.budget - cost, before.count + 1, before.spent + cost)
  }

  /** The accounting of a pass: the count is the number funded, what is spent is the sum of
      the funded costs, what is left plus what is spent is the starting budget, and a
      non-negative budget is never overspent. */
  lemma {:induction false} AllocateAccounting(costs: seq<int>, visit: seq<nat>, start: int)
    requires IndicesIn(visit, |costs|)
    ensures var a := Allocate(costs, visit, start);
            && a.count == CountTaken(a.taken)
            && a.spent == FundedCost(costs, visit, a.taken)
            && a.budget == start - a.spent
            && (start >= 0 ==> 0 <= a.budget && a.spent <= start)
  {
    if visit != [] {
      var n := |visit|;
      var before := Allocate(costs, visit[..n - 1], start);
      AllocateAccounting(costs, visit[..n - 1], start);
      var a := Allocate(costs, visit, start);
      assert a.taken[..n - 1] == before.taken;
    }
  }

  /** Leaving out the last candidate leaves the decisions on the others as they were. */
  lemma AllocateDropsLast(costs: seq<int>, visit: seq<nat>, start: int)
    requires IndicesIn(visit, |costs|) && |visit| > 0
    ensures Allocate(costs, visit[..|visit| - 1], start).taken
            == Allocate(costs, visit, start).taken[..|visit| - 1]
  {
  }

  /** The decisions on the first k candidates do not depend on the rest. */
  lemma {:induction false} AllocatePrefix(costs: seq<int>, visit: seq<nat>, start: int, k: nat)
    requires IndicesIn(visit, |costs|) && k <= |visit|
    ensures Allocate(costs, visit[..k], start).taken == Allocate(costs, visit, start).taken[..k]
  {
    var n := |visit|;
    if k == n {
      assert visit[..k] == visit;
    } else {
      var init := visit[..n - 1];
      AllocateDropsLast(costs, visit, start);
      AllocatePrefix(costs, init, start, k);
      assert init[..k] == visit[..k];
    }
  }

  /** Skip, not stop: the candidate visited k-th is funded exactly when the budget left after
      the first k candidates covers its cost. */
  lemma SkipOnlyWhenUnaffordable(costs: seq<int>, visit: seq<nat>, start: int, k: nat)
    requires IndicesIn(visit, |costs|) && k < |visit|
    ensures (Allocate(costs, visit, start).taken[k]
             <==> Allocate(costs, visit[..k], start).budget >= costs[visit[k]])
  {
    AllocatePrefix(costs, visit, start, k + 1);
    assert visit[..k + 1][..k] == visit[..k];
  }

  /** The segments a pass funded. */
  function Funded(visit: seq<nat>, taken: seq<bool>): set<nat>
    requires |taken| == |visit|
  {
    set k | 0 <= k < |visit| && taken[k] :: visit[k]
  }

  /** With no candidate visited twice, the count of a pass is the number of segments funded. */
  lemma {:induction false} FundedCount(visit: seq<nat>, taken: seq<bool>)
    requires |taken| == |visit| && NoDuplicates(visit)
    ensures |Funded(visit, taken)| == CountTaken(taken)
  {
    if visit != [] {
      var n := |visit|;
      FundedCount(visit[..n - 1], taken[..n - 1]);
      var before := Funded(visit[..n - 1], taken[..n - 1]);
      assert taken == taken[..n - 1] + [taken[n - 1]];
      if taken[n - 1] {
        assert Funded(visit, taken) == before + {visit[n - 1]};
        assert visit[n - 1] !in before;
      } else {
        assert Funded(visit, taken) == before;
      }
    }
  }

  /** The cost of each segment for the repair, by position. */
  function Costs(vals: seq<SegmentValue>, kind: Repair): (costs: seq<int>)
    ensures |costs| == |vals|
  {
    seq(|vals|, i requires 0 <= i < |vals| => Cost(kind, vals[i]))
  }

  /** The state of the i-th segment after funding: a funded segment gets the repair's
      effect with its own draw, any other stays as it was. */
  function FundOne(vals: seq<SegmentValue>, kind: Repair, funded: set<nat>, draws: seq<int>, i: nat)
    : SegmentValue
    requires i < |vals| && |draws| == |vals| && DrawsInRange(kind, draws)
  {
    if i in funded then Perform(kind, vals[i], draws[i]) else vals[i]
  }

  /** The states of the first n segments after funding. */
  function FundFirst(vals: seq<SegmentValue>, kind: Repair, funded: set<nat>, draws: seq<int>,
                     n: nat): (r: seq<SegmentValue>)
    requires n <= |vals| && |draws| == |vals| && DrawsInRange(kind, draws)
    ensures |r| == n
  {
    if n == 0 then [] else FundFirst(vals, kind, funded, draws, n - 1) + [FundOne(vals, kind, funded, draws, n - 1)]
  }

  lemma {:induction false} FundFirstAt(vals: seq<SegmentValue>, kind: Repair, funded: set<nat>,
                                       draws: seq<int>, n: nat, i: nat)
    requires i < n <= |vals| && |draws| == |vals| && DrawsInRange(kind, draws)
    ensures FundFirst(vals, kind, funded, draws, n)[i] == FundOne(vals, kind, funded, draws, i)
  {
    if i < n - 1 {
      FundFirstAt(vals, kind, funded, draws, n - 1, i);
    }
  }

  /** The states after funding. */
  function Fund(vals: seq<SegmentValue>, kind: Repair, funded: set<nat>, draws: seq<int>)
    : (r: seq<SegmentValue>)
    requires |draws| == |vals| && DrawsInRange(kind, draws)
    ensures |r| == |vals|
  {
    FundFirst(vals, kind, funded, draws, |vals|)
  }

  /** Funded segments get the repair's effect, the others stay as they were. */
  lemma FundAt(vals: seq<SegmentValue>, kind: Repair, funded: set<nat>, draws: seq<int>)
    requires |draws| == |vals| && DrawsInRange(kind, draws)
    ensures forall i :: 0 <= i < |vals| ==>
              Fund(vals, kind, funded, draws)[i]
                == if i in funded then Perform(kind, vals[i], draws[i]) else vals[i]
  {
    forall i | 0 <= i < |vals|
      ensures Fund(vals, kind, funded, draws)[i]
                == if i in funded then Perform(kind, vals[i], draws[i]) else vals[i]
    {
      FundFirstAt(vals, kind, funded, draws, |vals|, i);
    }
  }

  /** The same segment (identity and fixed attributes) in two states: only the history, the
      hold and the pending rehab condition may differ. */
  predicate SameSegment(before: SegmentValue, after: SegmentValue)
  {
    after == before.(conditions := after.conditions,
                     holdYearsRemaining := after.holdYearsRemaining,
                     postRehabCondition := after.postRehabCondition)
  }

  predicate IsPrefix(s: seq<real>, t: seq<real>)
  {
    |s| <= |t| && t[..|s|] == s
  }

  /** Two collections of the same segments whose histories extend those of the first. */
  predicate Extends(before: seq<SegmentValue>, after: seq<SegmentValue>)
  {
    && |after| == |before|
    && forall i :: 0 <= i < |before| ==>
         SameSegment(before[i], after[i]) && IsPrefix(before[i].conditions, after[i].conditions)
  }

  datatype Pass = Pass(visit: seq<nat>, allocation: Allocation, states: seq<SegmentValue>)

  /** One allocation pass: run_preventive_maintenance or run_rehabilitation_projects. */
  function RunPass(vals: seq<SegmentValue>, kind: Repair, method_: SelectionMethod,
                   order: seq<nat>, start: int, draws: seq<int>): (p: Pass)
    requires IsPermutation(order, |vals|) && |draws| == |vals| && DrawsInRange(kind, draws)
    ensures |p.states| == |vals|
  {
    var visit := VisitOrder(vals, kind, method_, order);
    var a := Allocate(Costs(vals, kind), visit, start);
    FundAt(vals, kind, Funded(visit, a.taken), draws);
    Pass(visit, a, Fund(vals, kind, Funded(visit, a.taken), draws))
  }

  /** A pass changes no segment's identity, attributes or history. */
  lemma PassKeepsSegments(vals: seq<SegmentValue>, kind: Repair, method_: SelectionMethod,
                          order: seq<nat>, start: int, draws: seq<int>)
    requires IsPermutation(order, |vals|) && |draws| == |vals| && DrawsInRange(kind, draws)
    ensures var p := RunPass(vals, kind, method_, order, start, draws);
            forall i :: 0 <= i < |vals| ==>
              SameSegment(vals[i], p.states[i]) && p.states[i].conditions == vals[i].conditions
  {
    var visit := VisitOrder(vals, kind, method_, order);
    var a := Allocate(Costs(vals, kind), visit, start);
    FundAt(vals, kind, Funded(visit, a.taken), draws);
  }

  /** What a pass does: it funds only segments eligible at its start, each at most once, as
      many as it counts; a funded segment gets the repair's effect and every other segment
      is left exactly as it was. */
  lemma PassFacts(vals: seq<SegmentValue>, kind: Repair, method_: SelectionMethod,
                  order: seq<nat>, start: int, draws: seq<int>)
    requires IsPermutation(order, |vals|) && |draws| == |vals| && DrawsInRange(kind, draws)
    ensures var p := RunPass(vals, kind, method_, order, start, draws);
            var funded := Funded(p.visit, p.allocation.taken);
            && (forall i :: i in funded ==> i < |vals| && Eligible(kind, vals[i]))
            && |funded| == p.allocation.count
            && (forall i :: 0 <= i < |vals| ==>
                  p.states[i] == if i in funded then Perform(kind, vals[i], draws[i]) else vals[i])
  {
    var p := RunPass(vals, kind, method_, order, start, draws);
    var visit := p.visit;
    var taken := p.allocation.taken;
    assert |Funded(visit, taken)| == p.allocation.count by {
      VisitedOnce(vals, kind, method_, order);
      AllocateAccounting(Costs(vals, kind), visit, start);
      FundedCount(visit, taken);
    }
    PassFundsOnlyEligible(vals, kind, method_, order, start, draws);
    FundAt(vals, kind, Funded(visit, taken), draws);
  }

  /** A pass funds only segments eligible at its start. */
  lemma PassFundsOnlyEligible(vals: seq<SegmentValue>, kind: Repair, method_: SelectionMethod,
                              order: seq<nat>, start: int, draws: seq<int>)
    requires IsPermutation(order, |vals|) && |draws| == |vals| && DrawsInRange(kind, draws)
    ensures var p := RunPass(vals, kind, method_, order, start, draws);
            forall i :: i in Funded(p.visit, p.allocation.taken) ==> i < |vals| && Eligible(kind, vals[i])
  {
    var p := RunPass(vals, kind, method_, order, start, draws);
    var visit := p.visit;
    var taken := p.allocation.taken;
    forall i | i in Funded(visit, taken) ensures i < |vals| && Eligible(kind, vals[i]) {
      var k :| 0 <= k < |visit| && taken[k] && visit[k] == i;
      VisitsOnlyEligible(vals, kind, method_, order);
    }
  }

  // ---------------------------------------------------------------------------------------
  // Aggregation

  /** Every segment has a recorded condition for the year, so quality(year) is defined. */
  predicate Recorded(vals: seq<SegmentValue>, year: int)
  {
    forall i :: 0 <= i < |vals| ==> 0 <= year < |vals[i].conditions|
  }

  /** The entry quality_by_count keeps for a category once the first n segments are
      tallied. */
  function QualityCount(vals: seq<SegmentValue>, n: nat, year: int, q: Quality): nat
    requires n <= |vals| && Recorded(vals, year)
  {
    if n == 0 then 0
    else QualityCount(vals, n - 1, year, q) + (if QualityAt(vals[n - 1], year) == q then 1 else 0)
  }

  /** The entry quality_by_length keeps for a category once the first n segments are
      tallied. */
  function QualityLength(vals: seq<SegmentValue>, n: nat, year: int, q: Quality): int
    requires n <= |vals| && Recorded(vals, year)
  {
    if n == 0 then 0
    else QualityLength(vals, n - 1, year, q) + (if QualityAt(vals[n - 1], year) == q then vals[n - 1].length else 0)
  }

  /** The length of the first n segments. */
  function TotalLength(vals: seq<SegmentValue>, n: nat): int
    requires n <= |vals|
  {
    if n == 0 then 0 else TotalLength(vals, n - 1) + vals[n - 1].length
  }

  /** Every segment falls in exactly one category: the counts add up to the number of
      segments tallied. */
  lemma {:induction false} CountsAddUp(vals: seq<SegmentValue>, n: nat, year: int)
    requires n <= |vals| && Recorded(vals, year)
    ensures QualityCount(vals, n, year, Unacceptable) + QualityCount(vals, n, year, Poor)
            + QualityCount(vals, n, year, Acceptable) + QualityCount(vals, n, year, Fair)
            + QualityCount(vals, n, year, Good) + QualityCount(vals, n, year, VeryGood) == n
  {
    if n > 0 {
      CountsAddUp(vals, n - 1, year);
    }
  }

  /** The lengths by category add up to the total length of the segments tallied. */
  lemma {:induction false} LengthsAddUp(vals: seq<SegmentValue>, n: nat, year: int)
    requires n <= |vals| && Recorded(vals, year)
    ensures QualityLength(vals, n, year, Unacceptable) + QualityLength(vals, n, year, Poor)
            + QualityLength(vals, n, year, Acceptable) + QualityLength(vals, n, year, Fair)
            + QualityLength(vals, n, year, Good) + QualityLength(vals, n, year, VeryGood)
            == TotalLength(vals, n)
  {
    if n > 0 {
      LengthsAddUp(vals, n - 1, year);
    }
  }

  /** What a segment adds to the current repair cost. */
  function RepairCost(v: SegmentValue): (r: int)
    ensures r == (if PreventiveEligible(v) then PreventiveCost(v) else 0)
                 + (if RehabEligible(v) then RehabCost(v) else 0)
    ensures v.areaSqyd >= 0 ==> 0 <= r <= RehabCost(v)
  {
    if PreventiveEligible(v) then PreventiveCost(v)
    else if RehabEligible(v) then RehabCost(v)
    else 0
  }

  /** current_repair_cost: the fold over the collection. */
  function CurrentRepairCost(vals: seq<SegmentValue>): (r: int)
    ensures (forall i :: 0 <= i < |vals| ==> vals[i].areaSqyd >= 0) ==> r >= 0
  {
    if vals == [] then 0
    else CurrentRepairCost(vals[..|vals| - 1]) + RepairCost(vals[|vals| - 1])
  }

  /** The cost of funding every segment eligible for one repair. */
  function EligibleCost(vals: seq<SegmentValue>, kind: Repair): int
  {
    if vals == [] then 0
    else
      var v := vals[|vals| - 1];
      EligibleCost(vals[..|vals| - 1], kind) + (if Eligible(kind, v) then Cost(kind, v) else 0)
  }

  /** The current repair cost is the cost of every preventive treatment plus every rehab the
      segments are eligible for: no segment is counted twice. */
  lemma {:induction false} CurrentRepairCostSplits(vals: seq<SegmentValue>)
    ensures CurrentRepairCost(vals) == EligibleCost(vals, Preventive) + EligibleCost(vals, Rehab)
  {
    if vals != [] {
      CurrentRepairCostSplits(vals[..|vals| - 1]);
    }
  }

  function Keys(h: seq<(int, real)>): set<int>
  {
    set e | e in h :: e.0
  }

  /** True when no two entries of an association list share a key: the first key does not
      come back later, and the same holds for the rest. */
  predicate UniqueKeys(h: seq<(int, real)>)
  {
    h == [] || (h[0].0 !in Keys(h[1..]) && UniqueKeys(h[1..]))
  }

  /** The keys of a list with one entry in front. */
  lemma KeysCons(e: (int, real), t: seq<(int, real)>)
    ensures Keys([e] + t) == {e.0} + Keys(t)
  {
    forall x | x in Keys([e] + t) ensures x in {e.0} + Keys(t) {
      var f :| f in [e] + t && f.0 == x;
      if f != e {
        assert f in t;
      }
    }
    forall x | x in Keys(t) ensures x in Keys([e] + t) {
      var f :| f in t && f.0 == x;
      assert f in [e] + t;
    }
  }

  /** `hash[key] = value` on an insertion-ordered hash held as an association list: an
      existing key keeps its place and takes the new value, a new key goes at the end. */
  function Put(h: seq<(int, real)>, key: int, value: real): (r: seq<(int, real)>)
  {
    if h == [] then [(key, value)]
    else if h[0].0 == key then [(key, value)] + h[1..]
    else [h[0]] + Put(h[1..], key, value)
  }

  /** After `hash[key] = value` the keys are the old keys and the key. */
  lemma {:induction false} PutKeys(h: seq<(int, real)>, key: int, value: real)
    ensures Keys(Put(h, key, value)) == Keys(h) + {key}
  {
    if h == [] {
      KeysCons((key, value), []);
    } else {
      assert h == [h[0]] + h[1..];
      KeysCons(h[0], h[1..]);
      if h[0].0 != key {
        PutKeys(h[1..], key, value);
        KeysCons(h[0], Put(h[1..], key, value));
      } else {
        KeysCons((key, value), h[1..]);
      }
    }
  }

  /** After `hash[key] = value` the key has the value and every entry under another key is
      kept. */
  lemma {:induction false} PutEntries(h: seq<(int, real)>, key: int, value: real)
    ensures (key, value) in Put(h, key, value)
    ensures forall e :: e in h && e.0 != key ==> e in Put(h, key, value)
  {
    if h != [] && h[0].0 != key {
      assert h == [h[0]] + h[1..];
      PutEntries(h[1..], key, value);
    } else if h != [] {
      assert h == [h[0]] + h[1..];
    }
  }

  /** `hash[key] = value` never lists a key twice when the hash did not. */
  lemma {:induction false} PutUnique(h: seq<(int, real)>, key: int, value: real)
    requires UniqueKeys(h)
    ensures UniqueKeys(Put(h, key, value))
  {
    if h != [] {
      var r := Put(h, key, value);
      if h[0].0 != key {
        var tail := Put(h[1..], key, value);
        PutUnique(h[1..], key, value);
        PutKeys(h[1..], key, value);
        assert r[1..] == tail;
      } else {
        assert r[1..] == h[1..];
      }
    }
  }

  /** `hash[key] = value` with a new key appends the entry. */
  lemma {:induction false} PutNewKey(h: seq<(int, real)>, key: int, value: real)
    requires key !in Keys(h)
    ensures Put(h, key, value) == h + [(key, value)]
  {
    if h != [] {
      assert h == [h[0]] + h[1..];
      KeysCons(h[0], h[1..]);
      PutNewKey(h[1..], key, value);
    }
  }

  /** The year's condition hash once the first n segments have stored their segid with
      their latest condition, in collection order. */
  function SnapshotOf(vals: seq<SegmentValue>, n: nat): (r: seq<(int, real)>)
    requires n <= |vals|
  {
    if n == 0 then [] else Put(SnapshotOf(vals, n - 1), vals[n - 1].segid, Last(vals[n - 1]))
  }

  /** The year's condition hash over the whole collection. */
  function Snapshot(vals: seq<SegmentValue>): (r: seq<(int, real)>)
  {
    SnapshotOf(vals, |vals|)
  }

  /** No segid is listed twice. */
  lemma {:induction false} SnapshotUnique(vals: seq<SegmentValue>, n: nat)
    requires n <= |vals|
    ensures UniqueKeys(SnapshotOf(vals, n))
  {
    if n > 0 {
      SnapshotUnique(vals, n - 1);
      PutUnique(SnapshotOf(vals, n - 1), vals[n - 1].segid, Last(vals[n - 1]));
    }
  }

  /** The segids of the first n segments. */
  function Ids(vals: seq<SegmentValue>, n: nat): set<int>
    requires n <= |vals|
  {
    set i | 0 <= i < n :: vals[i].segid
  }

  /** Exactly the segids of the segments stored so far are listed. */
  lemma {:induction false} SnapshotKeys(vals: seq<SegmentValue>, n: nat)
    requires n <= |vals|
    ensures Keys(SnapshotOf(vals, n)) == Ids(vals, n)
  {
    if n > 0 {
      SnapshotKeys(vals, n - 1);
      PutKeys(SnapshotOf(vals, n - 1), vals[n - 1].segid, Last(vals[n - 1]));
      assert Ids(vals, n) == Ids(vals, n - 1) + {vals[n - 1].segid};
    }
  }

  /** A segid maps to the latest condition of the last segment stored under it. */
  lemma {:induction false} SnapshotLatest(vals: seq<SegmentValue>, n: nat, i: nat)
    requires i < n <= |vals|
    requires forall j :: i < j < n ==> vals[j].segid != vals[i].segid
    ensures (vals[i].segid, Last(vals[i])) in SnapshotOf(vals, n)
  {
    PutEntries(SnapshotOf(vals, n - 1), vals[n - 1].segid, Last(vals[n - 1]));
    if i < n - 1 {
      SnapshotLatest(vals, n - 1, i);
    }
  }

  /** Each segment's segid with its latest condition, in collection order. */
  function Listed(vals: seq<SegmentValue>): (h: seq<(int, real)>)
    ensures |h| == |vals|
    ensures forall i :: 0 <= i < |vals| ==> h[i] == (vals[i].segid, Last(vals[i]))
  {
    seq(|vals|, i requires 0 <= i < |vals| => (vals[i].segid, Last(vals[i])))
  }

  /** With distinct segids the condition hash lists every segment stored so far, in
      collection order. */
  lemma {:induction false} SnapshotOfDistinctIds(vals: seq<SegmentValue>, n: nat)
    requires n <= |vals|
    requires forall j, k :: 0 <= j < k < |vals| ==> vals[j].segid != vals[k].segid
    ensures SnapshotOf(vals, n) == Listed(vals)[..n]
  {
    if n > 0 {
      SnapshotOfDistinctIds(vals, n - 1);
      SnapshotKeys(vals, n - 1);
      var key := vals[n - 1].segid;
      assert key !in Keys(SnapshotOf(vals, n - 1));
      PutNewKey(SnapshotOf(vals, n - 1), key, Last(vals[n - 1]));
      assert Listed(vals)[..n] == Listed(vals)[..n - 1] + [(key, Last(vals[n - 1]))];
    }
  }

  /** `conditions.values`: the conditions of a snapshot in its order. */
  function SnapshotValues(h: seq<(int, real)>): (values: seq<real>)
    ensures |values| == |h|
    ensures forall k :: 0 <= k < |h| ==> values[k] == h[k].1
  {
    if h == [] then [] else SnapshotValues(h[..|h| - 1]) + [h[|h| - 1].1]
  }

  // ---------------------------------------------------------------------------------------
  // The summary row

  /** A summary entry: a whole number, the mean or standard deviation of a list of
      conditions, or a category percentage given by its count and the number of segments. */
  datatype Cell =
    | Whole(n: int)
    | Mean(values: seq<real>)
    | StandardDeviation(values: seq<real>)
    | Percent(count: int, total: int)

  /** The abbreviation of a category. */
  function QualityKey(q: Quality): string
  {
    match q
    case Unacceptable => "un"
    case Poor => "p"
    case Acceptable => "a"
    case Fair => "f"
    case Good => "g"
    case VeryGood => "vg"
  }

  const FixedSummaryKeys: seq<string> := ["year", "prevented", "p_bud", "p_cost", "rehabbed",
    "r_bud", "r_cost", "average pci", "stdev", "total_budget", "total_spent",
    "current repair cost"]

  /** summary_keys as the source writes it: the fifth and sixth category columns are headed
      "f" and "a", but they hold the acceptable and the fair percentages. */
  function SummaryKeys(): (keys: seq<string>)
    ensures |keys| == 18 && keys[..12] == FixedSummaryKeys
  {
    FixedSummaryKeys + ["un", "p", "f", "a", "g", "vg"]
  }

  /** The headers that match the row: the fixed fields, then each category's abbreviation in
      the order of OrderedQualities. */
  function CorrectedSummaryKeys(): (keys: seq<string>)
    ensures |keys| == 12 + |OrderedQualities| && keys[..12] == FixedSummaryKeys
    ensures forall k :: 0 <= k < |OrderedQualities| ==> keys[12 + k] == QualityKey(OrderedQualities[k])
  {
    FixedSummaryKeys + ["un", "p", "a", "f", "g", "vg"]
  }

  /** The written headers put the fair label over the acceptable percentage and the other
      way round. */
  lemma SummaryKeysSwapCategories()
    ensures SummaryKeys()[14] == QualityKey(OrderedQualities[3])
    ensures SummaryKeys()[15] == QualityKey(OrderedQualities[2])
    ensures SummaryKeys()[14] != CorrectedSummaryKeys()[14]
  {
  }

  /** The percentage cells in the order of the categories given. */
  function PercentCells(vals: seq<SegmentValue>, year: int, qs: seq<Quality>): (cells: seq<Cell>)
    requires Recorded(vals, year)
    ensures |cells| == |qs|
    ensures forall k :: 0 <= k < |qs| ==> cells[k] == Percent(QualityCount(vals, |vals|, year, qs[k]), |vals|)
  {
    if qs == [] then []
    else PercentCells(vals, year, qs[..|qs| - 1]) + [Percent(QualityCount(vals, |vals|, year, qs[|qs| - 1]), |vals|)]
  }

  /** The summary row of a year, from the two passes and the states after deterioration. */
  function SummaryOf(year: int, sc: Scenario, p: Allocation, r: Allocation,
                     after: seq<SegmentValue>, snapshot: seq<(int, real)>): (row: seq<Cell>)
    requires 1 <= year <= |sc.preventiveBudgets| && year <= |sc.rehabBudgets|
    requires Recorded(after, year)
    ensures |row| == 12 + |OrderedQualities|
    ensures row[2].Whole? && row[5].Whole? && row[9] == Whole(row[2].n + row[5].n)
    ensures row[3].Whole? && row[6].Whole? && row[10] == Whole(row[3].n + row[6].n)
  {
    var pBudget := sc.preventiveBudgets[year - 1];
    var rBudget := sc.rehabBudgets[year - 1];
    var values := SnapshotValues(snapshot);
    [Whole(year), Whole(p.count), Whole(pBudget), Whole(p.spent), Whole(r.count), Whole(rBudget),
     Whole(r.spent), Mean(values), StandardDeviation(values), Whole(pBudget + rBudget),
     Whole(p.spent + r.spent), Whole(CurrentRepairCost(after))]
    + PercentCells(after, year, OrderedQualities)
  }

  // ---------------------------------------------------------------------------------------
  // A year and a run

  /** The budget the rehab pass of a year starts from: the year's rehab budget plus what the
      preventive pass left. */
  function RehabStart(sc: Scenario, year: int, leftover: int): int
    requires 1 <= year <= |sc.rehabBudgets|
  {
    sc.rehabBudgets[year - 1] + leftover
  }

  /** The random choices of one year: a random order of the collection for each pass (its
      shuffle, or the tie order of its sort), and for each segment the draw its hold or its
      rehab would get if funded. */
  datatype YearDraws = YearDraws(
    preventiveOrder: seq<nat>,
    rehabOrder: seq<nat>,
    holdDraws: seq<int>,
    rehabDraws: seq<int>)

  ghost predicate DrawsFit(d: YearDraws, n: nat)
  {
    && IsPermutation(d.preventiveOrder, n) && IsPermutation(d.rehabOrder, n)
    && |d.holdDraws| == n && DrawsInRange(Preventive, d.holdDraws)
    && |d.rehabDraws| == n && DrawsInRange(Rehab, d.rehabDraws)
  }

  /** What run_year needs: budgets for the year and a condition for the year to classify. */
  ghost predicate YearFits(vals: seq<SegmentValue>, sc: Scenario, year: int, d: YearDraws)
  {
    && 1 <= year <= |sc.preventiveBudgets| && year <= |sc.rehabBudgets|
    && DrawsFit(d, |vals|)
    && forall i :: 0 <= i < |vals| ==> year <= |vals[i].conditions|
  }

  /** One deterioration step for every segment. */
  function DeteriorateAll(vals: seq<SegmentValue>): (after: seq<SegmentValue>)
    ensures |after| == |vals|
    ensures forall i :: 0 <= i < |vals| ==> after[i] == Deteriorated(vals[i])
  {
    seq(|vals|, i requires 0 <= i < |vals| => Deteriorated(vals[i]))
  }

  datatype YearOutcome = YearOutcome(
    preventive: Pass,
    rehab: Pass,
    states: seq<SegmentValue>,
    snapshot: seq<(int, real)>,
    summary: seq<Cell>)

  /** run_year: the preventive pass on the year's preventive budget, the rehab pass on the
      year's rehab budget plus what the preventive pass left, one deterioration step for
      every segment, then the snapshot and the summary row. Every history grows by exactly
      one entry. */
  function RunYearSpec(vals: seq<SegmentValue>, sc: Scenario, year: int, d: YearDraws): (o: YearOutcome)
    requires YearFits(vals, sc, year, d)
    ensures |o.states| == |vals|
    ensures forall i :: 0 <= i < |vals| ==>
              && SameSegment(vals[i], o.states[i])
              && o.states[i].conditions == vals[i].conditions + [Last(o.states[i])]
  {
    var p := RunPass(vals, Preventive, sc.preventiveSelectionMethod, d.preventiveOrder,
                     sc.preventiveBudgets[year - 1], d.holdDraws);
    var r := RunPass(p.states, Rehab, sc.rehabSelectionMethod, d.rehabOrder,
                     RehabStart(sc, year, p.allocation.budget), d.rehabDraws);
    PassKeepsSegments(vals, Preventive, sc.preventiveSelectionMethod, d.preventiveOrder,
                      sc.preventiveBudgets[year - 1], d.holdDraws);
    PassKeepsSegments(p.states, Rehab, sc.rehabSelectionMethod, d.rehabOrder,
                      RehabStart(sc, year, p.allocation.budget), d.rehabDraws);
    var after := DeteriorateAll(r.states);
    var snapshot := Snapshot(after);
    YearOutcome(p, r, after, snapshot, SummaryOf(year, sc, p.allocation, r.allocation, after, snapshot))
  }

  /** run_year's steps taken one at a time give RunYearSpec. */
  lemma YearOutcomeIs(vals: seq<SegmentValue>, sc: Scenario, year: int, d: YearDraws, p: Pass,
                      r: Pass, after: seq<SegmentValue>, snapshot: seq<(int, real)>, summary: seq<Cell>)
    requires YearFits(vals, sc, year, d)
    requires p == RunPass(vals, Preventive, sc.preventiveSelectionMethod, d.preventiveOrder,
                          sc.preventiveBudgets[year - 1], d.holdDraws)
    requires r == RunPass(p.states, Rehab, sc.rehabSelectionMethod, d.rehabOrder,
                          RehabStart(sc, year, p.allocation.budget), d.rehabDraws)
    requires after == DeteriorateAll(r.states) && snapshot == Snapshot(after)
    requires Recorded(after, year)
    requires summary == SummaryOf(year, sc, p.allocation, r.allocation, after, snapshot)
    ensures RunYearSpec(vals, sc, year, d) == YearOutcome(p, r, after, snapshot, summary)
  {
  }

  /** The budget arithmetic of a pass: what is left is the starting budget minus what was
      spent, and a non-negative budget is never overspent. */
  lemma PassAccounting(vals: seq<SegmentValue>, kind: Repair, method_: SelectionMethod,
                       order: seq<nat>, start: int, draws: seq<int>)
    requires IsPermutation(order, |vals|) && |draws| == |vals| && DrawsInRange(kind, draws)
    ensures var a := RunPass(vals, kind, method_, order, start, draws).allocation;
            && a.budget == start - a.spent
            && (start >= 0 ==> 0 <= a.budget && a.spent <= start)
  {
    var visit := VisitOrder(vals, kind, method_, order);
    AllocateAccounting(Costs(vals, kind), visit, start);
  }

  /** The budget arithmetic of a year: the rehab pass starts from the year's rehab budget
      plus what the preventive pass left, so with non-negative budgets the year spends no
      more than the two budgets together and ends with a non-negative remainder. */
  lemma YearAccounting(vals: seq<SegmentValue>, pMethod: SelectionMethod, pOrder: seq<nat>,
                       pBudget: int, holdDraws: seq<int>, rMethod: SelectionMethod,
                       rOrder: seq<nat>, rBudget: int, rehabDraws: seq<int>)
    requires IsPermutation(pOrder, |vals|) && |holdDraws| == |vals| && DrawsInRange(Preventive, holdDraws)
    requires IsPermutation(rOrder, |vals|) && |rehabDraws| == |vals| && DrawsInRange(Rehab, rehabDraws)
    ensures var p := RunPass(vals, Preventive, pMethod, pOrder, pBudget, holdDraws).allocation;
            var r := RunPass(RunPass(vals, Preventive, pMethod, pOrder, pBudget, holdDraws).states,
                             Rehab, rMethod, rOrder, rBudget + p.budget, rehabDraws).allocation;
            && p.budget == pBudget - p.spent
            && r.budget == rBudget + pBudget - p.spent - r.spent
            && (pBudget >= 0 && rBudget >= 0 ==>
                  p.spent + r.spent <= pBudget + rBudget && r.budget >= 0)
  {
    var p := RunPass(vals, Preventive, pMethod, pOrder, pBudget, holdDraws);
    var r := RunPass(p.states, Rehab, rMethod, rOrder, rBudget + p.allocation.budget, rehabDraws);
    PassAccounting(vals, Preventive, pMethod, pOrder, pBudget, holdDraws);
    PassAccounting(p.states, Rehab, rMethod, rOrder, rBudget + p.allocation.budget, rehabDraws);
    var pa, ra := p.allocation, r.allocation;
    var rStart := rBudget + pa.budget;
    assert ra.budget == rStart - ra.spent;
    if pBudget >= 0 && rBudget >= 0 {
      assert 0 <= pa.budget && rStart >= 0;
      assert 0 <= ra.budget && ra.spent <= rStart;
    }
  }

  /** No segment gets both repairs in a year: a segment funded for preventive maintenance had
      a condition of at least 70, the rehab pass that follows only funds conditions of at
      most 50, and the preventive pass does not change conditions. */
  lemma NoSegmentRepairedTwice(vals: seq<SegmentValue>, pMethod: SelectionMethod, pOrder: seq<nat>,
                               pStart: int, holdDraws: seq<int>, rMethod: SelectionMethod,
                               rOrder: seq<nat>, rStart: int, rehabDraws: seq<int>)
    requires IsPermutation(pOrder, |vals|) && |holdDraws| == |vals| && DrawsInRange(Preventive, holdDraws)
    requires IsPermutation(rOrder, |vals|) && |rehabDraws| == |vals| && DrawsInRange(Rehab, rehabDraws)
    ensures var p := RunPass(vals, Preventive, pMethod, pOrder, pStart, holdDraws);
            var r := RunPass(p.states, Rehab, rMethod, rOrder, rStart, rehabDraws);
            Funded(p.visit, p.allocation.taken) !! Funded(r.visit, r.allocation.taken)
  {
    var p := RunPass(vals, Preventive, pMethod, pOrder, pStart, holdDraws);
    var r := RunPass(p.states, Rehab, rMethod, rOrder, rStart, rehabDraws);
    PassFundsOnlyEligible(vals, Preventive, pMethod, pOrder, pStart, holdDraws);
    PassFundsOnlyEligible(p.states, Rehab, rMethod, rOrder, rStart, rehabDraws);
    PassKeepsSegments(vals, Preventive, pMethod, pOrder, pStart, holdDraws);
    forall i | i in Funded(p.visit, p.allocation.taken)
      ensures i !in Funded(r.visit, r.allocation.taken)
    {
      assert PreventiveEligible(vals[i]);
      assert Last(p.states[i]) == Last(vals[i]);
    }
  }

  /** Every segment of the collection is Consistent. */
  predicate AllConsistent(vals: seq<SegmentValue>)
  {
    forall i :: 0 <= i < |vals| ==> Consistent(vals[i])
  }

  /** Segments that are Consistent at the start of a year are Consistent at its end. */
  lemma YearKeepsConsistency(vals: seq<SegmentValue>, sc: Scenario, year: int, d: YearDraws)
    requires YearFits(vals, sc, year, d)
    requires AllConsistent(vals)
    ensures AllConsistent(RunYearSpec(vals, sc, year, d).states)
  {
    var o := RunYearSpec(vals, sc, year, d);
    var p := o.preventive;
    var r := o.rehab;
    PassFacts(vals, Preventive, sc.preventiveSelectionMethod, d.preventiveOrder,
              sc.preventiveBudgets[year - 1], d.holdDraws);
    PassFacts(p.states, Rehab, sc.rehabSelectionMethod, d.rehabOrder,
              RehabStart(sc, year, p.allocation.budget), d.rehabDraws);
    forall i | 0 <= i < |vals| ensures Consistent(o.states[i]) {
      ConsistencyIsInvariant(vals[i], d.holdDraws[i]);
      ConsistencyIsInvariant(p.states[i], d.rehabDraws[i]);
      ConsistencyIsInvariant(r.states[i], 0);
    }
  }

  /** The summary row has one cell per corrected header: the category columns hold the
      percentage counts in the order of the corrected headers, and those counts add up to
      the number of segments. */
  lemma SummaryMatchesCorrectedKeys(year: int, sc: Scenario, p: Allocation, r: Allocation,
                                    after: seq<SegmentValue>, snapshot: seq<(int, real)>)
    requires 1 <= year <= |sc.preventiveBudgets| && year <= |sc.rehabBudgets|
    requires Recorded(after, year)
    ensures var summary := SummaryOf(year, sc, p, r, after, snapshot);
            && |summary| == |CorrectedSummaryKeys()|
            && (forall k :: 0 <= k < |OrderedQualities| ==>
                  && CorrectedSummaryKeys()[12 + k] == QualityKey(OrderedQualities[k])
                  && summary[12 + k] == Percent(QualityCount(after, |after|, year, OrderedQualities[k]), |after|))
            && var n := |after|;
               QualityCount(after, n, year, Unacceptable) + QualityCount(after, n, year, Poor)
               + QualityCount(after, n, year, Acceptable) + QualityCount(after, n, year, Fair)
               + QualityCount(after, n, year, Good) + QualityCount(after, n, year, VeryGood) == n
  {
    CountsAddUp(after, |after|, year);
  }

  /** The random choices of a whole run, one YearDraws per year. */
  ghost predicate RunFits(vals: seq<SegmentValue>, sc: Scenario, draws: seq<YearDraws>, n: nat)
  {
    && n <= |sc.preventiveBudgets| && n <= |sc.rehabBudgets| && n <= |draws|
    && forall y :: 0 <= y < n ==> DrawsFit(draws[y], |vals|)
  }

  /** What run returns, with the states the segments are left in. */
  datatype Forecast = Forecast(
    states: seq<SegmentValue>,
    snapshots: seq<seq<(int, real)>>,
    summaries: seq<seq<Cell>>)

  /** The first n years of a run: year y + 1 uses draws[y]. Each year adds one snapshot, one
      summary row and one condition to every history. */
  function Simulate(vals: seq<SegmentValue>, sc: Scenario, draws: seq<YearDraws>, n: nat): (f: Forecast)
    requires RunFits(vals, sc, draws, n)
    ensures |f.snapshots| == n && |f.summaries| == n && |f.states| == |vals|
    ensures forall i :: 0 <= i < |vals| ==> |f.states[i].conditions| == |vals[i].conditions| + n
  {
    if n == 0 then Forecast(vals, [], [])
    else
      var before := Simulate(vals, sc, draws, n - 1);
      assert YearFits(before.states, sc, n, draws[n - 1]) by {
        assert DrawsFit(draws[n - 1], |vals|);
        forall i | 0 <= i < |vals| ensures n <= |before.states[i].conditions| {
          assert |vals[i].conditions| >= 1;
        }
      }
      var o := RunYearSpec(before.states, sc, n, draws[n - 1]);
      Forecast(o.states, before.snapshots + [o.snapshot], before.summaries + [o.summary])
  }

  /** Year n of a run is run_year on the states the first n - 1 years left. */
  lemma SimulateStep(vals: seq<SegmentValue>, sc: Scenario, draws: seq<YearDraws>, n: nat)
    requires RunFits(vals, sc, draws, n) && n > 0
    ensures var before := Simulate(vals, sc, draws, n - 1);
            && YearFits(before.states, sc, n, draws[n - 1])
            && Simulate(vals, sc, draws, n).states == RunYearSpec(before.states, sc, n, draws[n - 1]).states
  {
    var before := Simulate(vals, sc, draws, n - 1);
    assert DrawsFit(draws[n - 1], |vals|);
    forall i | 0 <= i < |vals| ensures n <= |before.states[i].conditions| {
      assert |vals[i].conditions| >= 1;
    }
  }

  /** A run of m years fits its first n + 1 years, for n < m, and year n + 1 adds
      run_year's snapshot and summary row to those of the first n years. */
  lemma SimulateNext(vals: seq<SegmentValue>, sc: Scenario, draws: seq<YearDraws>, m: nat, n: nat)
    requires RunFits(vals, sc, draws, m) && n < m
    ensures RunFits(vals, sc, draws, n) && RunFits(vals, sc, draws, n + 1)
    ensures var before := Simulate(vals, sc, draws, n);
            && YearFits(before.states, sc, n + 1, draws[n])
            && var o := RunYearSpec(before.states, sc, n + 1, draws[n]);
               Simulate(vals, sc, draws, n + 1)
                 == Forecast(o.states, before.snapshots + [o.snapshot], before.summaries + [o.summary])
  {
    SimulateStep(vals, sc, draws, n + 1);
  }

  /** Extending by one year's step keeps the extension. */
  lemma ExtendsByAYear(vals: seq<SegmentValue>, before: seq<SegmentValue>, after: seq<SegmentValue>)
    requires Extends(vals, before) && |after| == |before|
    requires forall i :: 0 <= i < |before| ==>
               SameSegment(before[i], after[i])
               && after[i].conditions == before[i].conditions + [Last(after[i])]
    ensures Extends(vals, after)
  {
    forall i | 0 <= i < |vals|
      ensures SameSegment(vals[i], after[i]) && IsPrefix(vals[i].conditions, after[i].conditions)
    {
      var c := vals[i].conditions;
      assert after[i].conditions[..|c|] == before[i].conditions[..|c|];
    }
  }

  lemma ExtendsItself(vals: seq<SegmentValue>)
    ensures Extends(vals, vals)
  {
    forall i | 0 <= i < |vals| ensures IsPrefix(vals[i].conditions, vals[i].conditions) {
      assert vals[i].conditions[..|vals[i].conditions|] == vals[i].conditions;
    }
  }

  lemma RunExtendsStep(vals: seq<SegmentValue>, sc: Scenario, draws: seq<YearDraws>, n: nat)
    requires RunFits(vals, sc, draws, n) && n > 0
    requires Extends(vals, Simulate(vals, sc, draws, n - 1).states)
    ensures Extends(vals, Simulate(vals, sc, draws, n).states)
  {
    SimulateStep(vals, sc, draws, n);
    var before := Simulate(vals, sc, draws, n - 1).states;
    ExtendsByAYear(vals, before, RunYearSpec(before, sc, n, draws[n - 1]).states);
  }

  /** A run changes no segment's identity or attributes and never rewrites a recorded
      condition. */
  lemma {:induction false} RunExtends(vals: seq<SegmentValue>, sc: Scenario,
                                      draws: seq<YearDraws>, n: nat)
    requires RunFits(vals, sc, draws, n)
    ensures Extends(vals, Simulate(vals, sc, draws, n).states)
  {
    if n == 0 {
      ExtendsItself(vals);
    } else {
      RunExtends(vals, sc, draws, n - 1);
      RunExtendsStep(vals, sc, draws, n);
    }
  }

  /** The cost of a repair depends only on a segment's area, which nothing changes: a hold,
      a rehab or a year of deterioration leaves both costs as they were. */
  lemma CostIsFixed(kind: Repair, v: SegmentValue, draw: int)
    ensures Cost(kind, Deteriorated(v)) == Cost(kind, v)
    ensures 0 <= draw < DrawCount(Preventive) ==> Cost(kind, WithPreventiveHold(v, draw)) == Cost(kind, v)
    ensures 0 <= draw < DrawCount(Rehab) ==> Cost(kind, WithRehab(v, draw)) == Cost(kind, v)
  {
  }

  /** Whatever a run funds, each segment's repair costs at the end are those it started with. */
  lemma RunKeepsCosts(vals: seq<SegmentValue>, sc: Scenario, draws: seq<YearDraws>, n: nat, kind: Repair)
    requires RunFits(vals, sc, draws, n)
    ensures forall i :: 0 <= i < |vals| ==>
              Cost(kind, Simulate(vals, sc, draws, n).states[i]) == Cost(kind, vals[i])
  {
    RunExtends(vals, sc, draws, n);
  }

  lemma RunConsistencyStep(vals: seq<SegmentValue>, sc: Scenario, draws: seq<YearDraws>, n: nat)
    requires RunFits(vals, sc, draws, n) && n > 0
    requires AllConsistent(Simulate(vals, sc, draws, n - 1).states)
    ensures AllConsistent(Simulate(vals, sc, draws, n).states)
  {
    SimulateStep(vals, sc, draws, n);
    YearKeepsConsistency(Simulate(vals, sc, draws, n - 1).states, sc, n, draws[n - 1]);
  }

  /** Every segment of a new collection stays Consistent for the whole run. */
  lemma {:induction false} RunKeepsConsistency(vals: seq<SegmentValue>, sc: Scenario,
                                               draws: seq<YearDraws>, n: nat)
    requires RunFits(vals, sc, draws, n)
    requires AllConsistent(vals)
    ensures AllConsistent(Simulate(vals, sc, draws, n).states)
  {
    if n > 0 {
      RunKeepsConsistency(vals, sc, draws, n - 1);
      RunConsistencyStep(vals, sc, draws, n);
    }
  }

  /** The funded set after one more candidate is decided. */
  lemma FundedStep(visit: seq<nat>, taken: seq<bool>, k: nat, b: bool)
    requires |taken| == k < |visit|
    ensures Funded(visit[..k + 1], taken + [b])
            == Funded(visit[..k], taken) + (if b then {visit[k]} else {})
  {
    var after := Funded(visit[..k + 1], taken + [b]);
    var before := Funded(visit[..k], taken);
    forall x | x in after ensures x in before || (b && x == visit[k]) {
      var j :| 0 <= j < k + 1 && (taken + [b])[j] && visit[..k + 1][j] == x;
      if j < k {
        assert visit[..k][j] == x && taken[j];
      }
    }
    forall x | x in before ensures x in after {
      var j :| 0 <= j < k && taken[j] && visit[..k][j] == x;
      assert (taken + [b])[j] && visit[..k + 1][j] == x;
    }
    if b {
      assert (taken + [b])[k] && visit[..k + 1][k] == visit[k];
    }
  }

  /** The candidate visited k-th was not funded among the first k, as none of them is the
      same segment. */
  lemma NotYetFunded(visit: seq<nat>, taken: seq<bool>, k: nat)
    requires NoDuplicates(visit) && |taken| == k < |visit|
    ensures visit[k] !in Funded(visit[..k], taken)
  {
    forall j | 0 <= j < k ensures visit[..k][j] != visit[k] {
      assert visit[..k][j] == visit[j];
    }
  }

  /** Only segments eligible at the start of the pass are visited. */
  lemma VisitsOnlyEligible(vals: seq<SegmentValue>, kind: Repair, method_: SelectionMethod,
                           order: seq<nat>)
    requires IsPermutation(order, |vals|)
    ensures var visit := VisitOrder(vals, kind, method_, order);
            forall k :: 0 <= k < |visit| ==> Eligible(kind, vals[visit[k]])
  {
    VisitOrderIsPermutation(vals, kind, method_, order);
  }

  /** No candidate is visited twice. */
  lemma VisitedOnce(vals: seq<SegmentValue>, kind: Repair, method_: SelectionMethod, order: seq<nat>)
    requires IsPermutation(order, |vals|)
    ensures NoDuplicates(VisitOrder(vals, kind, method_, order))
  {
    VisitOrderIsPermutation(vals, kind, method_, order);
  }

  /** Partway through a pass: the segments funded so far have the repair's effect and every
      other segment is in its state at the start of the pass. */
  predicate Walked(vals: seq<SegmentValue>, kind: Repair, draws: seq<int>, funded: set<nat>,
                   now: seq<SegmentValue>)
    requires |draws| == |vals| && DrawsInRange(kind, draws)
  {
    && |now| == |vals|
    && forall i :: 0 <= i < |vals| ==>
         now[i] == if i in funded then Perform(kind, vals[i], draws[i]) else vals[i]
  }

  /** Funding one more segment, not funded before, keeps a walk Walked. */
  lemma WalkStep(vals: seq<SegmentValue>, kind: Repair, draws: seq<int>, funded: set<nat>,
                 now: seq<SegmentValue>, i: nat)
    requires |draws| == |vals| && DrawsInRange(kind, draws)
    requires Walked(vals, kind, draws, funded, now) && i < |vals| && i !in funded
    ensures now[i] == vals[i]
    ensures Walked(vals, kind, draws, funded + {i}, now[i := Perform(kind, vals[i], draws[i])])
  {
  }

  /** A finished walk is Fund. */
  lemma WalkedIsFund(vals: seq<SegmentValue>, kind: Repair, draws: seq<int>, funded: set<nat>,
                     now: seq<SegmentValue>)
    requires |draws| == |vals| && DrawsInRange(kind, draws)
    requires Walked(vals, kind, draws, funded, now)
    ensures now == Fund(vals, kind, funded, draws)
  {
    FundAt(vals, kind, funded, draws);
  }

  /** One more candidate: it is funded exactly when the budget left covers its cost. */
  lemma AllocateStep(costs: seq<int>, visit: seq<nat>, start: int, k: nat)
    requires IndicesIn(visit, |costs|) && k < |visit|
    ensures var a := Allocate(costs, visit[..k], start);
            var cost := costs[visit[k]];
            Allocate(costs, visit[..k + 1], start)
              == if a.budget < cost then Allocation(a.taken + [false], a.budget, a.count, a.spent)
                 else Allocation(a.taken + [true], a.budget - cost, a.count + 1, a.spent + cost)
  {
    assert visit[..k + 1][..k] == visit[..k];
  }

  /** The quality_by_count hash once the first n segments are tallied: each segment adds
      one to the entry of its category for the year. */
  function CountTally(vals: seq<SegmentValue>, n: nat, year: int): (m: map<Quality, int>)
    requires n <= |vals| && Recorded(vals, year)
    ensures forall q: Quality :: q in m
  {
    if n == 0 then
      AllQualitiesListed();
      Qualities()
    else
      var m := CountTally(vals, n - 1, year);
      var c := QualityAt(vals[n - 1], year);
      m[c := m[c] + 1]
  }

  /** The quality_by_length hash once the first n segments are tallied: each segment adds
      its length to the entry of its category for the year. */
  function LengthTally(vals: seq<SegmentValue>, n: nat, year: int): (m: map<Quality, int>)
    requires n <= |vals| && Recorded(vals, year)
    ensures forall q: Quality :: q in m
  {
    if n == 0 then
      AllQualitiesListed();
      Qualities()
    else
      var m := LengthTally(vals, n - 1, year);
      var c := QualityAt(vals[n - 1], year);
      m[c := m[c] + vals[n - 1].length]
  }

  /** Tallying one more segment, of category c and length len, into the hashes of the
      segments before it. */
  lemma TallyStep(vals: seq<SegmentValue>, n: nat, year: int, c: Quality, len: int,
                  byCount: map<Quality, int>, byLength: map<Quality, int>)
    requires n < |vals| && Recorded(vals, year)
    requires c == QualityAt(vals[n], year) && len == vals[n].length
    requires byCount == CountTally(vals, n, year) && byLength == LengthTally(vals, n, year)
    ensures c in byCount && c in byLength
    ensures byCount[c := byCount[c] + 1] == CountTally(vals, n + 1, year)
    ensures byLength[c := byLength[c] + len] == LengthTally(vals, n + 1, year)
  {
  }

  lemma AllQualitiesListed()
    ensures forall q: Quality :: q in OrderedQualities
  {
    forall q: Quality ensures q in OrderedQualities {
      assert OrderedQualities[Rank(q)] == q;
    }
  }

  /** The quality_by_count hash holds, for every category, the number of segments tallied
      that fall in it. */
  lemma {:induction false} CountTallyCounts(vals: seq<SegmentValue>, n: nat, year: int, q: Quality)
    requires n <= |vals| && Recorded(vals, year)
    ensures CountTally(vals, n, year)[q] == QualityCount(vals, n, year, q)
  {
    if n > 0 {
      CountTallyCounts(vals, n - 1, year, q);
    }
  }

  /** The quality_by_length hash holds, for every category, the total length of the
      segments tallied that fall in it. */
  lemma {:induction false} LengthTallyMeasures(vals: seq<SegmentValue>, n: nat, year: int, q: Quality)
    requires n <= |vals| && Recorded(vals, year)
    ensures LengthTally(vals, n, year)[q] == QualityLength(vals, n, year, q)
  {
    if n > 0 {
      LengthTallyMeasures(vals, n - 1, year, q);
    }
  }

  /** Every history has at least `year` entries: the year is recorded once more are added. */
  predicate Reaches(vals: seq<SegmentValue>, year: int)
  {
    forall i :: 0 <= i < |vals| ==> 0 <= year <= |vals[i].conditions|
  }

  /** After one more deterioration step a year that was at most the history's length has a
      recorded condition. */
  lemma DeteriorateAllRecords(vals: seq<SegmentValue>, year: int)
    requires Reaches(vals, year)
    ensures Recorded(DeteriorateAll(vals), year)
  {
  }

  /** Partway through the deterioration loop: the first i segments have deteriorated once
      and the others are as they were. */
  predicate DeterioratedUpTo(vals: seq<SegmentValue>, i: nat, now: seq<SegmentValue>)
  {
    && |now| == |vals|
    && forall j :: 0 <= j < |vals| ==> now[j] == if j < i then Deteriorated(vals[j]) else vals[j]
  }

  /** Deteriorating the next segment moves the loop on by one. */
  lemma DeteriorateNext(vals: seq<SegmentValue>, i: nat, now: seq<SegmentValue>)
    requires DeterioratedUpTo(vals, i, now) && i < |vals|
    ensures now[i] == vals[i]
    ensures DeterioratedUpTo(vals, i + 1, now[i := Deteriorated(now[i])])
  {
  }

  /** At the end of the loop every segment has deteriorated once. */
  lemma DeterioratedAll(vals: seq<SegmentValue>, now: seq<SegmentValue>)
    requires DeterioratedUpTo(vals, |vals|, now)
    ensures now == DeteriorateAll(vals)
  {
  }

  // ---------------------------------------------------------------------------------------
  // The engine object

  /** The engine: the Segment objects it was given and the scenario. Its passes and its year
      update the segments in place and are proved to do what RunPass and RunYearSpec say. */
  class Streetcast {
    const segments: seq<Segment>
    const scenario: Scenario

    constructor (segments: seq<Segment>, scenario: Scenario)
      ensures this.segments == segments && this.scenario == scenario
    {
      this.segments := segments;
      this.scenario := scenario;
    }

    /** No Segment object appears twice in the collection. */
    predicate Distinct()
    {
      forall j, k :: 0 <= j < k < |segments| ==> Apart(j, k)
    }

    /** The j-th and the k-th entries are different objects. */
    predicate Apart(j: nat, k: nat)
      requires j < |segments| && k < |segments|
    {
      segments[j] != segments[k]
    }

    /** The states of the segments, in collection order. */
    function Values(): (vals: seq<SegmentValue>)
      reads segments
      ensures |vals| == |segments|
      ensures forall i :: 0 <= i < |segments| ==> vals[i] == segments[i].Value()
    {
      seq(|segments|, i reads segments requires 0 <= i < |segments| => segments[i].Value())
    }

    /** perform_preventive_maintenance or perform_rehab on the i-th segment; no other
        segment changes. */
    method PerformRepair(kind: Repair, i: nat, draw: int)
      requires Distinct() && i < |segments| && 0 <= draw < DrawCount(kind)
      modifies segments[i]
      ensures Values() == old(Values())[i := Perform(kind, old(Values())[i], draw)]
    {
      ghost var before := Values();
      var seg := segments[i];
      if kind == Preventive {
        seg.PerformPreventiveMaintenance(draw);
      } else {
        seg.PerformRehab(draw);
      }
      forall j | 0 <= j < |segments| && j != i ensures segments[j].Value() == before[j] {
        assert if j < i then Apart(j, i) else Apart(i, j);
      }
    }

    /** One turn of the `each` loop of both passes: the k-th candidate is skipped when the
        remaining budget cannot cover its cost; otherwise the repair is performed on it, with
        the draw of its position, and its cost is expensed. */
    method FundNext(kind: Repair, vals: seq<SegmentValue>, visit: seq<nat>, start: int,
                    draws: seq<int>, k: nat, ghost taken: seq<bool>, budget: int, count: int,
                    spent: int)
      returns (ghost taken': seq<bool>, budget': int, count': int, spent': int)
      requires Distinct() && |vals| == |segments|
      requires IndicesIn(visit, |vals|) && NoDuplicates(visit)
      requires |draws| == |vals| && DrawsInRange(kind, draws)
      requires k < |visit| && |taken| == k
      requires Allocate(Costs(vals, kind), visit[..k], start) == Allocation(taken, budget, count, spent)
      requires Walked(vals, kind, draws, Funded(visit[..k], taken), Values())
      modifies segments
      ensures |taken'| == k + 1
      ensures Allocate(Costs(vals, kind), visit[..k + 1], start) == Allocation(taken', budget', count', spent')
      ensures Walked(vals, kind, draws, Funded(visit[..k + 1], taken'), Values())
    {
      var i := visit[k];
      var seg := segments[i];
      ghost var funded := Funded(visit[..k], taken);
      NotYetFunded(visit, taken, k);
      WalkStep(vals, kind, draws, funded, Values(), i);
      // The cost depends on the area alone, so it is the same before and after the work.
      var cost := Cost(kind, seg.Value());
      AllocateStep(Costs(vals, kind), visit, start, k);
      FundedStep(visit, taken, k, budget >= cost);
      if budget < cost {
        taken', budget', count', spent' := taken + [false], budget, count, spent;
      } else {
        PerformRepair(kind, i, draws[i]);
        taken', budget', count', spent' := taken + [true], budget - cost, count + 1, spent + cost;
      }
    }

    /** The `each` loop of both passes: walks the candidates in visit order, skips one the
        remaining budget cannot cover and goes on, otherwise performs the repair on it (with
        the draw draws[i] for segment i) and expenses its cost. It returns the budget left,
        the number funded and the amount spent, as Allocate computes them, and leaves exactly
        the funded segments changed, each by the repair's effect. */
    method FundInOrder(kind: Repair, vals: seq<SegmentValue>, visit: seq<nat>, start: int,
                       draws: seq<int>)
      returns (budget: int, count: int, spent: int)
      requires Distinct() && vals == Values()
      requires IndicesIn(visit, |vals|) && NoDuplicates(visit)
      requires |draws| == |vals| && DrawsInRange(kind, draws)
      modifies segments
      ensures var a := Allocate(Costs(vals, kind), visit, start);
              && budget == a.budget && count == a.count && spent == a.spent
              && Values() == Fund(vals, kind, Funded(visit, a.taken), draws)
    {
      budget := start;
      count := 0;
      spent := 0;
      ghost var taken: seq<bool> := [];
      var k := 0;
      while k < |visit|
        invariant 0 <= k <= |visit| && |taken| == k
        invariant Allocate(Costs(vals, kind), visit[..k], start) == Allocation(taken, budget, count, spent)
        invariant Walked(vals, kind, draws, Funded(visit[..k], taken), Values())
      {
        taken, budget, count, spent :=
          FundNext(kind, vals, visit, start, draws, k, taken, budget, count, spent);
        k := k + 1;
      }
      assert visit[..k] == visit;
      WalkedIsFund(vals, kind, draws, Funded(visit, taken), Values());
    }

    /** run_preventive_maintenance: the candidates are the segments eligible for preventive
        maintenance, sorted by latest condition or shuffled (order is the shuffle), walked
        with the year's preventive budget; holdDraws[i] is the hold draw of segment i. */
    method RunPreventiveMaintenance(year: int, order: seq<nat>, holdDraws: seq<int>)
      returns (budget: int, segsPrevented: int, preventiveCost: int)
      requires Distinct()
      requires 1 <= year <= |scenario.preventiveBudgets|
      requires IsPermutation(order, |segments|)
      requires |holdDraws| == |segments| && DrawsInRange(Preventive, holdDraws)
      modifies segments
      ensures var p := RunPass(old(Values()), Preventive, scenario.preventiveSelectionMethod, order,
                               scenario.preventiveBudgets[year - 1], holdDraws);
              && Values() == p.states
              && budget == p.allocation.budget && segsPrevented == p.allocation.count
              && preventiveCost == p.allocation.spent
    {
      var vals := Values();
      var visit := VisitOrder(vals, Preventive, scenario.preventiveSelectionMethod, order);
      VisitedOnce(vals, Preventive, scenario.preventiveSelectionMethod, order);
      budget, segsPrevented, preventiveCost :=
        FundInOrder(Preventive, vals, visit, scenario.preventiveBudgets[year - 1], holdDraws);
    }

    /** run_rehabilitation_projects: the same walk over the segments eligible for rehab, with
        the year's rehab budget plus the preventive pass's leftover; rehabDraws[i] is the
        rehab draw of segment i. */
    method RunRehabilitationProjects(year: int, leftoverBudget: int, order: seq<nat>,
                                     rehabDraws: seq<int>)
      returns (segsRehabbed: int, rehabCost: int)
      requires Distinct()
      requires 1 <= year <= |scenario.rehabBudgets|
      requires IsPermutation(order, |segments|)
      requires |rehabDraws| == |segments| && DrawsInRange(Rehab, rehabDraws)
      modifies segments
      ensures var r := RunPass(old(Values()), Rehab, scenario.rehabSelectionMethod, order,
                               RehabStart(scenario, year, leftoverBudget), rehabDraws);
              && Values() == r.states
              && segsRehabbed == r.allocation.count && rehabCost == r.allocation.spent
    {
      var vals := Values();
      var visit := VisitOrder(vals, Rehab, scenario.rehabSelectionMethod, order);
      VisitedOnce(vals, Rehab, scenario.rehabSelectionMethod, order);
      var budget;
      budget, segsRehabbed, rehabCost :=
        FundInOrder(Rehab, vals, visit, RehabStart(scenario, year, leftoverBudget), rehabDraws);
    }

    /** deteriorate on the i-th segment; no other segment changes. */
    method DeteriorateAt(i: nat)
      requires Distinct() && i < |segments|
      modifies segments[i]
      ensures Values() == old(Values())[i := Deteriorated(old(Values())[i])]
    {
      ghost var before := Values();
      var seg := segments[i];
      seg.Deteriorate();
      forall j | 0 <= j < |segments| && j != i ensures segments[j].Value() == before[j] {
        assert if j < i then Apart(j, i) else Apart(i, j);
      }
    }

    /** One turn of the deterioration loop of run_year: the i-th segment deteriorates once,
        its segid is stored with its new latest condition in the condition hash, and a count
        of one and its length are added to the tallies of the category of its condition for
        the year. Before the turn the first i segments have been handled, after it the first
        i + 1. */
    method DeteriorateAndRecord(i: nat, year: int, ghost before: seq<SegmentValue>,
                                ghost after: seq<SegmentValue>, conditions: seq<(int, real)>,
                                qualityByCount: map<Quality, int>, qualityByLength: map<Quality, int>)
      returns (conditions': seq<(int, real)>, qualityByCount': map<Quality, int>,
               qualityByLength': map<Quality, int>)
      requires Distinct() && i < |segments| && |before| == |segments|
      requires after == DeteriorateAll(before) && Recorded(after, year)
      requires DeterioratedUpTo(before, i, Values())
      requires conditions == SnapshotOf(after, i)
      requires qualityByCount == CountTally(after, i, year)
      requires qualityByLength == LengthTally(after, i, year)
      modifies segments[i]
      ensures DeterioratedUpTo(before, i + 1, Values())
      ensures conditions' == SnapshotOf(after, i + 1)
      ensures qualityByCount' == CountTally(after, i + 1, year)
      ensures qualityByLength' == LengthTally(after, i + 1, year)
    {
      DeteriorateNext(before, i, Values());
      DeteriorateAt(i);
      conditions', qualityByCount', qualityByLength' :=
        Record(i, year, after, conditions, qualityByCount, qualityByLength);
    }

    /** The bookkeeping of a turn of the deterioration loop: the i-th segment, already
        deteriorated, stores its segid with its latest condition in the condition hash and
        adds a count of one and its length to the tallies of its category for the year. */
    method Record(i: nat, year: int, ghost after: seq<SegmentValue>, conditions: seq<(int, real)>,
                  qualityByCount: map<Quality, int>, qualityByLength: map<Quality, int>)
      returns (conditions': seq<(int, real)>, qualityByCount': map<Quality, int>,
               qualityByLength': map<Quality, int>)
      requires i < |segments| && |after| == |segments| && Recorded(after, year)
      requires segments[i].Value() == after[i]
      requires conditions == SnapshotOf(after, i)
      requires qualityByCount == CountTally(after, i, year)
      requires qualityByLength == LengthTally(after, i, year)
      ensures conditions' == SnapshotOf(after, i + 1)
      ensures qualityByCount' == CountTally(after, i + 1, year)
      ensures qualityByLength' == LengthTally(after, i + 1, year)
    {
      var seg := segments[i];
      conditions' := Put(conditions, seg.segid, Last(seg.Value()));
      var category := QualityAt(seg.Value(), year);
      TallyStep(after, i, year, category, seg.length, qualityByCount, qualityByLength);
      qualityByLength' := qualityByLength[category := qualityByLength[category] + seg.length];
      qualityByCount' := qualityByCount[category := qualityByCount[category] + 1];
    }

    /** The deterioration loop of run_year over the whole collection, in order. Afterwards
        every segment has deteriorated once, the condition hash is the snapshot of the new
        states and the tallies count the categories of the year. */
    method DeteriorateAndTally(year: int)
      returns (conditions: seq<(int, real)>, qualityByCount: map<Quality, int>,
               qualityByLength: map<Quality, int>)
      requires Distinct() && Reaches(Values(), year)
      modifies segments
      ensures Values() == DeteriorateAll(old(Values()))
      ensures conditions == Snapshot(Values())
      ensures Recorded(Values(), year)
      ensures qualityByCount == CountTally(Values(), |segments|, year)
      ensures qualityByLength == LengthTally(Values(), |segments|, year)
    {
      ghost var before := Values();
      ghost var after := DeteriorateAll(before);
      DeteriorateAllRecords(before, year);
      qualityByLength := Qualities();
      qualityByCount := Qualities();
      conditions := [];
      var i := 0;
      while i < |segments|
        invariant 0 <= i <= |segments|
        invariant DeterioratedUpTo(before, i, Values())
        invariant conditions == SnapshotOf(after, i)
        invariant qualityByCount == CountTally(after, i, year)
        invariant qualityByLength == LengthTally(after, i, year)
      {
        conditions, qualityByCount, qualityByLength :=
          DeteriorateAndRecord(i, year, before, after, conditions, qualityByCount, qualityByLength);
        i := i + 1;
      }
      DeterioratedAll(before, Values());
    }

    /** The percentage loop of run_year: one cell per category, in the order of the keys of
        `qualities`, holding the category's count and the number of segments. */
    method PercentRow(year: int, qualityByCount: map<Quality, int>) returns (cells: seq<Cell>)
      requires Recorded(Values(), year)
      requires qualityByCount == CountTally(Values(), |segments|, year)
      ensures cells == PercentCells(Values(), year, OrderedQualities)
    {
      cells := [];
      var k := 0;
      while k < |OrderedQualities|
        invariant 0 <= k <= |OrderedQualities|
        invariant cells == PercentCells(Values(), year, OrderedQualities[..k])
      {
        var category := OrderedQualities[k];
        CountTallyCounts(Values(), |segments|, year, category);
        assert OrderedQualities[..k + 1][..k] == OrderedQualities[..k];
        cells := cells + [Percent(qualityByCount[category], |segments|)];
        k := k + 1;
      }
      assert OrderedQualities[..k] == OrderedQualities;
    }

    /** The summary row of run_year, built from the two passes' counts and costs, the
        condition hash and the count tallies of the year. */
    method SummaryRow(year: int, segsPrevented: int, preventiveCost: int, segsRehabbed: int,
                      rehabCost: int, conditions: seq<(int, real)>,
                      qualityByCount: map<Quality, int>, ghost p: Allocation, ghost r: Allocation)
      returns (summary: seq<Cell>)
      requires 1 <= year <= |scenario.preventiveBudgets| && year <= |scenario.rehabBudgets|
      requires Recorded(Values(), year)
      requires qualityByCount == CountTally(Values(), |segments|, year)
      requires segsPrevented == p.count && preventiveCost == p.spent
      requires segsRehabbed == r.count && rehabCost == r.spent
      ensures summary == SummaryOf(year, scenario, p, r, Values(), conditions)
    {
      var crc := CurrentRepairCost(Values());
      var conditionValues := SnapshotValues(conditions);
      var totalBudget := scenario.preventiveBudgets[year - 1] + scenario.rehabBudgets[year - 1];
      var totalSpent := preventiveCost + rehabCost;
      summary := [Whole(year), Whole(segsPrevented), Whole(scenario.preventiveBudgets[year - 1]),
                  Whole(preventiveCost), Whole(segsRehabbed), Whole(scenario.rehabBudgets[year - 1]),
                  Whole(rehabCost), Mean(conditionValues), StandardDeviation(conditionValues),
                  Whole(totalBudget), Whole(totalSpent), Whole(crc)];
      var percents := PercentRow(year, qualityByCount);
      summary := summary + percents;
    }

    /** The two passes of run_year: preventive maintenance on the year's preventive budget,
        then rehab on the year's rehab budget plus what the preventive pass left. */
    method RunPasses(year: int, d: YearDraws)
      returns (segsPrevented: int, preventiveCost: int, segsRehabbed: int, rehabCost: int)
      requires Distinct() && YearFits(Values(), scenario, year, d)
      modifies segments
      ensures var p := RunPass(old(Values()), Preventive, scenario.preventiveSelectionMethod,
                               d.preventiveOrder, scenario.preventiveBudgets[year - 1], d.holdDraws);
              var r := RunPass(p.states, Rehab, scenario.rehabSelectionMethod, d.rehabOrder,
                               RehabStart(scenario, year, p.allocation.budget), d.rehabDraws);
              && Values() == r.states
              && segsPrevented == p.allocation.count && preventiveCost == p.allocation.spent
              && segsRehabbed == r.allocation.count && rehabCost == r.allocation.spent
      ensures Reaches(Values(), year)
    {
      ghost var vals := Values();
      ghost var p := RunPass(vals, Preventive, scenario.preventiveSelectionMethod, d.preventiveOrder,
                             scenario.preventiveBudgets[year - 1], d.holdDraws);
      var remainingBudget;
      remainingBudget, segsPrevented, preventiveCost :=
        RunPreventiveMaintenance(year, d.preventiveOrder, d.holdDraws);
      segsRehabbed, rehabCost :=
        RunRehabilitationProjects(year, remainingBudget, d.rehabOrder, d.rehabDraws);
      PassKeepsSegments(vals, Preventive, scenario.preventiveSelectionMethod, d.preventiveOrder,
                        scenario.preventiveBudgets[year - 1], d.holdDraws);
      PassKeepsSegments(p.states, Rehab, scenario.rehabSelectionMethod, d.rehabOrder,
                        RehabStart(scenario, year, p.allocation.budget), d.rehabDraws);
      forall i | 0 <= i < |segments| ensures 0 <= year <= |Values()[i].conditions| {
        assert Values()[i].conditions == p.states[i].conditions == vals[i].conditions;
      }
    }

    /** The part of run_year that changes the segments: the two passes, then the
        deterioration loop with its condition hash and tallies. */
    method AdvanceYear(year: int, d: YearDraws)
      returns (segsPrevented: int, preventiveCost: int, segsRehabbed: int, rehabCost: int,
               conditions: seq<(int, real)>, qualityByCount: map<Quality, int>)
      requires Distinct() && YearFits(Values(), scenario, year, d)
      modifies segments
      ensures var p := RunPass(old(Values()), Preventive, scenario.preventiveSelectionMethod,
                               d.preventiveOrder, scenario.preventiveBudgets[year - 1], d.holdDraws);
              var r := RunPass(p.states, Rehab, scenario.rehabSelectionMethod, d.rehabOrder,
                               RehabStart(scenario, year, p.allocation.budget), d.rehabDraws);
              && Values() == DeteriorateAll(r.states)
              && segsPrevented == p.allocation.count && preventiveCost == p.allocation.spent
              && segsRehabbed == r.allocation.count && rehabCost == r.allocation.spent
      ensures Recorded(Values(), year) && conditions == Snapshot(Values())
      ensures qualityByCount == CountTally(Values(), |segments|, year)
    {
      segsPrevented, preventiveCost, segsRehabbed, rehabCost := RunPasses(year, d);
      var qualityByLength;
      conditions, qualityByCount, qualityByLength := DeteriorateAndTally(year);
    }

    /** run_year: the preventive pass, the rehab pass with the preventive leftover, the
        deterioration loop, then the summary row. The result is what RunYearSpec
        describes. */
    method RunYear(year: int, d: YearDraws) returns (conditions: seq<(int, real)>, summary: seq<Cell>)
      requires Distinct() && YearFits(Values(), scenario, year, d)
      modifies segments
      ensures var o := RunYearSpec(old(Values()), scenario, year, d);
              && Values() == o.states && conditions == o.snapshot && summary == o.summary
    {
      ghost var vals := Values();
      ghost var p := RunPass(vals, Preventive, scenario.preventiveSelectionMethod, d.preventiveOrder,
                             scenario.preventiveBudgets[year - 1], d.holdDraws);
      ghost var r := RunPass(p.states, Rehab, scenario.rehabSelectionMethod, d.rehabOrder,
                             RehabStart(scenario, year, p.allocation.budget), d.rehabDraws);
      var segsPrevented, preventiveCost, segsRehabbed, rehabCost, qualityByCount;
      segsPrevented, preventiveCost, segsRehabbed, rehabCost, conditions, qualityByCount :=
        AdvanceYear(year, d);
      summary := SummaryRow(year, segsPrevented, preventiveCost, segsRehabbed, rehabCost,
                            conditions, qualityByCount, p.allocation, r.allocation);
      YearOutcomeIs(vals, scenario, year, d, p, r, Values(), conditions, summary);
    }
  
    /** run: run_year for years 1 .. years_to_simulate in turn, year y using draws[y - 1];
        the condition hashes and the summary rows are collected in year order. The result
        and the states the segments are left in are what Simulate describes. */
    method Run(draws: seq<YearDraws>) returns (conditions: seq<seq<(int, real)>>, summary: seq<seq<Cell>>)
      requires Distinct() && RunFits(Values(), scenario, draws, YearsRun(scenario))
      modifies segments
      ensures var f := Simulate(old(Values()), scenario, draws, YearsRun(scenario));
              && Values() == f.states && conditions == f.snapshots && summary == f.summaries
    {
      ghost var vals := Values();
      conditions := [];
      summary := [];
      var years := YearsRun(scenario);
      var year := 0;
      while year < years
        invariant 0 <= year <= years
        invariant RunFits(vals, scenario, draws, year)
        invariant Simulate(vals, scenario, draws, year) == Forecast(Values(), conditions, summary)
      {
        conditions, summary := RunNextYear(vals, draws, years, year, conditions, summary);
        year := year + 1;
      }
    }

    /** One turn of run's loop: year `year + 1` is run and its results appended. */
    method RunNextYear(ghost vals: seq<SegmentValue>, draws: seq<YearDraws>, years: nat, year: nat,
                       conditions: seq<seq<(int, real)>>, summary: seq<seq<Cell>>)
      returns (conditions': seq<seq<(int, real)>>, summary': seq<seq<Cell>>)
      requires Distinct() && year < years && RunFits(vals, scenario, draws, years)
      requires RunFits(vals, scenario, draws, year)
      requires Simulate(vals, scenario, draws, year) == Forecast(Values(), conditions, summary)
      modifies segments
      ensures RunFits(vals, scenario, draws, year + 1)
      ensures Simulate(vals, scenario, draws, year + 1) == Forecast(Values(), conditions', summary')
    {
      SimulateNext(vals, scenario, draws, years, year);
      var c, s := RunYear(year + 1, draws[year]);
      conditions' := conditions + [c];
      summary' := summary + [s];
    }
  }
}
