/**
  The control layer of the inverse-iteration eigen-solver: choosing a convergence
  criterion, the two phase loops that share one iteration budget, the search for one
  eigenpair, and the driver behind the three entry points.

  The numeric body of a phase step (an LU solve or a matrix product, then the
  refinement of `EigenHelpers.Refine`, then the convergence criterion's verdict) is
  abstracted into an `Oracle`: for a criterion, a phase and a step index it says
  whether the phase stops there and with which estimate. What the loops do with the
  budget, and what the driver does with the phases' answers, is modelled exactly.
 */
module InverseIteration {
  import opened Vectors
  import opened Wrappers
  import opened EigenHelpers

  /* ---------------------------------------------------------------------------
     Configuration and the criterion choice
     ------------------------------------------------------------------------- */

  /** The iterator's configuration: a back-error threshold (0 means none), whether
      wall-clock time rather than a step count bounds the work, and the time slice
      each phase is given, in integer nanoseconds. */
  datatype Settings = Settings(precThreshold: real, useTime: bool, iterationTime: int)

  /** The three convergence criteria, with the parameter each one is built from. */
  datatype Criterion =
    | BackErrorCriterion(threshold: real)
    | TimeCriterion(slice: int)
    | OscillationCriterion

  /** A non-zero back-error threshold wins over the time mode; the oscillation
      criterion is the fallback. */
  function ConvergenceCriteria(s: Settings): (c: Criterion)
    ensures c.BackErrorCriterion? <==> s.precThreshold != 0.0
    ensures c.TimeCriterion? <==> s.precThreshold == 0.0 && s.useTime
    ensures c.OscillationCriterion? <==> s.precThreshold == 0.0 && !s.useTime
    ensures c.BackErrorCriterion? ==> c.threshold == s.precThreshold
    ensures c.TimeCriterion? ==> c.slice == s.iterationTime
  {
    if s.precThreshold != 0.0 then BackErrorCriterion(s.precThreshold)
    else if s.useTime then TimeCriterion(s.iterationTime)
    else OscillationCriterion
  }

  /** Two settings select the same criterion exactly when they agree on the parts
      that the selected criterion reads. */
  lemma CriteriaIgnoresUnusedSettings(s: Settings, t: Settings)
    ensures ConvergenceCriteria(s) == ConvergenceCriteria(t) <==>
      && s.precThreshold == t.precThreshold
      && (s.precThreshold == 0.0 ==> s.useTime == t.useTime)
      && (s.precThreshold == 0.0 && s.useTime ==> s.iterationTime == t.iterationTime)
  {
  }

  /** Go's integer division, which truncates toward zero. */
  function TruncDiv(a: int, b: int): (q: int)
    requires b > 0
    ensures a >= 0 ==> 0 <= q * b <= a < q * b + b
    ensures a < 0 ==> q * b - b < a <= q * b <= 0
  {
    if a >= 0 then
      EuclideanBounds(a, b);
      a / b
    else
      EuclideanBounds(-a, b);
      -((-a) / b)
  }

  /** Dafny's division on a non-negative dividend rounds down. */
  lemma EuclideanBounds(a: int, b: int)
    requires a >= 0 && b > 0
    ensures 0 <= (a / b) * b <= a < (a / b) * b + b
  {
    var q, r := a / b, a % b;
    assert a == q * b + r && 0 <= r < b;
    assert q >= 0;
  }

  /** Truncating division is odd in its dividend, unlike Euclidean division. */
  lemma TruncDivOdd(a: int, b: int)
    requires b > 0
    ensures TruncDiv(-a, b) == -TruncDiv(a, b)
  {
  }

  /** `b` when it is positive, otherwise 0: the number of steps a budget of `b` pays for. */
  function NonNeg(b: int): nat {
    if b > 0 then b else 0
  }

  /* ---------------------------------------------------------------------------
     Phases and their outcomes
     ------------------------------------------------------------------------- */

  /** The two phases of one eigenpair search, with what each depends on: the
      eigenvectors found so far and, for the power phase, the inverse phase's result. */
  datatype PhaseInput =
    | InversePhase(known: seq<Vector>)
    | PowerPhase(known: seq<Vector>, start: Estimate)

  /** What a phase loop does after one step: go on, or return an estimate. */
  datatype StepOutcome = Continue | Stop(pair: Estimate)

  /** The numeric part of every phase step: a singular shift in the inverse phase, or
      the criterion reporting convergence, stops the phase with an estimate. */
  type Oracle = (Criterion, PhaseInput, nat) -> StepOutcome

  /** Step k is the first step at which the phase stops. */
  predicate StopsFirstAt(o: Oracle, c: Criterion, p: PhaseInput, k: nat) {
    o(c, p, k).Stop? && forall j :: 0 <= j < k ==> o(c, p, j).Continue?
  }

  /** A phase that eventually stops, as the time criterion does once its slice runs out. */
  ghost predicate Halts(o: Oracle, c: Criterion, p: PhaseInput) {
    exists k: nat :: o(c, p, k).Stop?
  }

  /** Both phases of a search halt, whatever the inverse phase hands to the power phase. */
  ghost predicate PhasesHalt(o: Oracle, c: Criterion, known: seq<Vector>) {
    && Halts(o, c, InversePhase(known))
    && forall start :: Halts(o, c, PowerPhase(known, start))
  }

  /** A phase stops first at one step only. */
  lemma StopsFirstAtUnique(o: Oracle, c: Criterion, p: PhaseInput, a: nat, b: nat)
    requires StopsFirstAt(o, c, p, a) && StopsFirstAt(o, c, p, b)
    ensures a == b
  {
  }

  /** One phase loop. Every step first takes one unit off the shared budget; the loop
      runs while budget is left or, in time mode, until the phase stops. Returns the
      budget left over, the estimate the phase stopped with (None when the budget ran
      out first) and the number of steps taken. */
  method PhaseLoop(o: Oracle, c: Criterion, p: PhaseInput, budget: int, useTime: bool)
    returns (remaining: int, result: Option<Estimate>, steps: nat)
    requires useTime ==> Halts(o, c, p)
    ensures remaining == budget - steps
    ensures result.Some? ==> steps > 0 && StopsFirstAt(o, c, p, steps - 1)
    ensures result.Some? ==> result.value == o(c, p, steps - 1).pair
    ensures result.None? ==> !useTime && steps == NonNeg(budget)
    ensures result.None? ==> forall j :: 0 <= j < steps ==> o(c, p, j).Continue?
    ensures !useTime ==> steps <= NonNeg(budget)
  {
    remaining := budget;
    steps := 0;
    ghost var bound: nat := 0;
    if useTime {
      bound :| o(c, p, bound).Stop?;
    }
    while remaining > 0 || useTime
      invariant remaining == budget - steps
      invariant forall j :: 0 <= j < steps ==> o(c, p, j).Continue?
      invariant useTime ==> o(c, p, bound).Stop? && steps <= bound
      invariant !useTime ==> steps <= NonNeg(budget)
      decreases if useTime then bound - steps else remaining
    {
      remaining := remaining - 1;
      var outcome := o(c, p, steps);
      steps := steps + 1;
      if outcome.Stop? {
        return remaining, Some(outcome.pair), steps;
      }
    }
    result := None;
  }

  /** A phase loop fails exactly when the budget runs out before the phase stops. */
  lemma PhaseFailsIffBudgetExhausted(o: Oracle, c: Criterion, p: PhaseInput, budget: int, k: nat)
    requires StopsFirstAt(o, c, p, k)
    ensures k < NonNeg(budget) <==> !(forall j :: 0 <= j < NonNeg(budget) ==> o(c, p, j).Continue?)
  {
    if k < NonNeg(budget) {
      assert o(c, p, k).Stop?;
    }
  }

  /* ---------------------------------------------------------------------------
     One eigenpair search
     ------------------------------------------------------------------------- */

  /** The mutable state of the iterator: the budget and the pairs found so far. */
  datatype Iterator = Iterator(remaining: int, values: seq<real>, vectors: seq<Vector>)

  datatype SearchError = ErrMaxSteps

  /** The inverse phase stops first at step i, the power phase started from its
      estimate stops first at step j, and `e` is the estimate the power phase returns. */
  predicate SearchYields(o: Oracle, c: Criterion, known: seq<Vector>, i: nat, j: nat, e: Estimate) {
    && StopsFirstAt(o, c, InversePhase(known), i)
    && StopsFirstAt(o, c, PowerPhase(known, o(c, InversePhase(known), i).pair), j)
    && o(c, PowerPhase(known, o(c, InversePhase(known), i).pair), j).pair == e
  }

  /** `e` is what one search yields given the eigenvectors `known`. */
  ghost predicate Found(o: Oracle, c: Criterion, known: seq<Vector>, e: Estimate) {
    exists i: nat, j: nat :: SearchYields(o, c, known, i, j, e)
  }

  /** A search whose phases stop first at steps i and j takes i + 1 + j + 1 steps;
      none of the searches from `known` fits into what `budget` pays for. */
  ghost predicate NoSearchFits(o: Oracle, c: Criterion, known: seq<Vector>, budget: int) {
    forall i: nat, j: nat, e :: SearchYields(o, c, known, i, j, e) ==> i + j + 2 > NonNeg(budget)
  }

  /** Runs the inverse phase, then the power phase from its estimate, both against
      the one budget. On success the pair is appended; on failure nothing is. */
  method FindNextVector(o: Oracle, settings: Settings, it: Iterator)
    returns (next: Iterator, err: Option<SearchError>, inverseSteps: nat, powerSteps: nat)
    requires |it.values| == |it.vectors|
    requires settings.useTime ==> PhasesHalt(o, ConvergenceCriteria(settings), it.vectors)
    ensures next.remaining == it.remaining - inverseSteps - powerSteps
    ensures |next.values| == |next.vectors|
    ensures err.None? ==> |next.values| == |it.values| + 1
    ensures err.None? ==> next.values[..|it.values|] == it.values && next.vectors[..|it.vectors|] == it.vectors
    ensures err.None? ==> inverseSteps > 0 && powerSteps > 0
    ensures err.None? ==> SearchYields(o, ConvergenceCriteria(settings), it.vectors, inverseSteps - 1,
      powerSteps - 1, Estimate(next.values[|it.values|], next.vectors[|it.vectors|]))
    ensures err.Some? ==> next.values == it.values && next.vectors == it.vectors
    ensures err.Some? ==> !settings.useTime && next.remaining <= 0
    ensures err.Some? ==> NoSearchFits(o, ConvergenceCriteria(settings), it.vectors, it.remaining)
    ensures !settings.useTime ==> inverseSteps + powerSteps <= NonNeg(it.remaining)
  {
    var c := ConvergenceCriteria(settings);
    var known := it.vectors;
    var afterInverse, start, i := PhaseLoop(o, c, InversePhase(known), it.remaining, settings.useTime);
    inverseSteps, powerSteps := i, 0;
    if start.None? {
      next := it.(remaining := afterInverse);
      err := Some(ErrMaxSteps);
      forall i': nat, j': nat, e | SearchYields(o, c, known, i', j', e)
        ensures i' + j' + 2 > NonNeg(it.remaining)
      {
        assert o(c, InversePhase(known), i').Stop?;
      }
      return;
    }
    var afterPower, pair, j := PhaseLoop(o, c, PowerPhase(known, start.value), afterInverse, settings.useTime);
    powerSteps := j;
    if pair.None? {
      next := it.(remaining := afterPower);
      err := Some(ErrMaxSteps);
      forall i': nat, j': nat, e | SearchYields(o, c, known, i', j', e)
        ensures i' + j' + 2 > NonNeg(it.remaining)
      {
        StopsFirstAtUnique(o, c, InversePhase(known), i', i - 1);
        assert o(c, PowerPhase(known, start.value), j').Stop?;
      }
      return;
    }
    next := Iterator(afterPower, it.values + [pair.value.val], it.vectors + [pair.value.vec]);
    err := None;
  }

  /* ---------------------------------------------------------------------------
     The driver and the entry points
     ------------------------------------------------------------------------- */

  /** The pairs found, each the search result given the ones before it. */
  ghost predicate AllFound(o: Oracle, c: Criterion, values: seq<real>, vectors: seq<Vector>)
    requires |values| == |vectors|
  {
    forall s :: 0 <= s < |values| ==> Found(o, c, vectors[..s], Estimate(values[s], vectors[s]))
  }

  /** The steps at which the two phases of one search first stopped. */
  datatype SearchSteps = SearchSteps(inverse: nat, power: nat)

  /** The budget a list of successful searches used: each phase also paid for the
      step at which it stopped. */
  function TotalSteps(steps: seq<SearchSteps>): (total: nat)
    ensures total >= 2 * |steps|
  {
    if |steps| == 0 then 0
    else TotalSteps(steps[..|steps| - 1]) + steps[|steps| - 1].inverse + steps[|steps| - 1].power + 2
  }

  lemma TotalStepsAppend(steps: seq<SearchSteps>, x: SearchSteps)
    ensures TotalSteps(steps + [x]) == TotalSteps(steps) + x.inverse + x.power + 2
  {
    assert (steps + [x])[..|steps|] == steps;
  }

  /** Pair s was found by a search whose phases stopped first at `steps[s]`, given
      the pairs before it. */
  ghost predicate FoundWith(o: Oracle, c: Criterion, values: seq<real>, vectors: seq<Vector>,
                            steps: seq<SearchSteps>)
    requires |values| == |vectors| == |steps|
  {
    forall s :: 0 <= s < |values| ==>
      SearchYields(o, c, vectors[..s], steps[s].inverse, steps[s].power, Estimate(values[s], vectors[s]))
  }

  /** A search that fits into what is left of the budget keeps the total within it. */
  lemma BudgetAfterSearch(budget: int, spent: nat, inverseSteps: nat, powerSteps: nat)
    requires spent <= NonNeg(budget) && inverseSteps + powerSteps <= NonNeg(budget - spent)
    ensures spent + inverseSteps + powerSteps <= NonNeg(budget)
  {
  }

  /** The driver's loop keeps its record after a successful search: the record grows
      by the search's stopping steps, and the budget falls by what the search took. */
  lemma SolveStep(o: Oracle, c: Criterion, budget: int, useTime: bool, it: Iterator,
                  steps: seq<SearchSteps>, next: Iterator, inverseSteps: nat, powerSteps: nat)
    requires |it.values| == |it.vectors| == |steps|
    requires it.remaining == budget - TotalSteps(steps)
    requires !useTime ==> TotalSteps(steps) <= NonNeg(budget)
    requires FoundWith(o, c, it.values, it.vectors, steps)
    requires next.remaining == it.remaining - inverseSteps - powerSteps
    requires |next.values| == |next.vectors| == |it.values| + 1
    requires next.values[..|it.values|] == it.values && next.vectors[..|it.vectors|] == it.vectors
    requires inverseSteps > 0 && powerSteps > 0
    requires SearchYields(o, c, it.vectors, inverseSteps - 1, powerSteps - 1,
      Estimate(next.values[|it.values|], next.vectors[|it.vectors|]))
    requires !useTime ==> inverseSteps + powerSteps <= NonNeg(it.remaining)
    ensures
      var steps' := steps + [SearchSteps(inverseSteps - 1, powerSteps - 1)];
      && |next.values| == |next.vectors| == |steps'|
      && next.remaining == budget - TotalSteps(steps')
      && (!useTime ==> TotalSteps(steps') <= NonNeg(budget))
      && FoundWith(o, c, next.values, next.vectors, steps')
  {
    var x := SearchSteps(inverseSteps - 1, powerSteps - 1);
    var n := |it.values|;
    assert next.values == it.values + [next.values[n]];
    assert next.vectors == it.vectors + [next.vectors[n]];
    FoundWithAppend(o, c, it.values, it.vectors, steps, next.values[n], next.vectors[n], x);
    TotalStepsAppend(steps, x);
    if !useTime {
      BudgetAfterSearch(budget, TotalSteps(steps), inverseSteps, powerSteps);
    }
  }

  /** A search that succeeds from the pairs found so far extends the record by one. */
  lemma FoundWithAppend(o: Oracle, c: Criterion, values: seq<real>, vectors: seq<Vector>,
                        steps: seq<SearchSteps>, val: real, vec: Vector, x: SearchSteps)
    requires |values| == |vectors| == |steps|
    requires FoundWith(o, c, values, vectors, steps)
    requires SearchYields(o, c, vectors, x.inverse, x.power, Estimate(val, vec))
    ensures FoundWith(o, c, values + [val], vectors + [vec], steps + [x])
  {
    var vectors' := vectors + [vec];
    forall s | 0 <= s < |values|
      ensures vectors'[..s] == vectors[..s]
    {
    }
    assert vectors'[..|vectors|] == vectors;
  }

  /** The recorded stopping steps witness that every pair was found. */
  lemma FoundWithAllFound(o: Oracle, c: Criterion, values: seq<real>, vectors: seq<Vector>,
                          steps: seq<SearchSteps>)
    requires |values| == |vectors| == |steps|
    requires FoundWith(o, c, values, vectors, steps)
    ensures AllFound(o, c, values, vectors)
  {
    forall s | 0 <= s < |values|
      ensures Found(o, c, vectors[..s], Estimate(values[s], vectors[s]))
    {
      assert SearchYields(o, c, vectors[..s], steps[s].inverse, steps[s].power, Estimate(values[s], vectors[s]));
    }
  }

  /** One search per row of `m`, stopping at the first failed search. The ghost
      `steps` records where each successful search's phases stopped. */
  method Solve(m: Matrix, o: Oracle, settings: Settings, budget: int)
    returns (values: seq<real>, vectors: seq<Vector>, err: Option<SearchError>, ghost steps: seq<SearchSteps>)
    requires IsSquare(m)
    requires settings.useTime ==> forall known :: PhasesHalt(o, ConvergenceCriteria(settings), known)
    ensures |values| == |vectors| == |steps| <= |m|
    ensures err.None? <==> |values| == |m|
    ensures settings.useTime ==> err.None?
    ensures !settings.useTime ==> 2 * |values| <= NonNeg(budget)
    ensures AllFound(o, ConvergenceCriteria(settings), values, vectors)
    ensures FoundWith(o, ConvergenceCriteria(settings), values, vectors, steps)
    ensures !settings.useTime ==> TotalSteps(steps) <= NonNeg(budget)
    ensures err.Some? ==> NoSearchFits(o, ConvergenceCriteria(settings), vectors, budget - TotalSteps(steps))
  {
    var c := ConvergenceCriteria(settings);
    var it := Iterator(budget, [], []);
    err := None;
    steps := [];
    var i := 0;
    while i < |m|
      invariant 0 <= i <= |m|
      invariant |it.values| == |it.vectors| == |steps| == i
      invariant it.remaining == budget - TotalSteps(steps)
      invariant !settings.useTime ==> TotalSteps(steps) <= NonNeg(budget)
      invariant FoundWith(o, c, it.values, it.vectors, steps)
      invariant err.None?
    {
      var next, e, inverseSteps, powerSteps := FindNextVector(o, settings, it);
      if e.Some? {
        it, err := next, e;
        break;
      }
      SolveStep(o, c, budget, settings.useTime, it, steps, next, inverseSteps, powerSteps);
      it, steps := next, steps + [SearchSteps(inverseSteps - 1, powerSteps - 1)];
      i := i + 1;
    }
    FoundWithAllFound(o, c, it.values, it.vectors, steps);
    values, vectors := it.values, it.vectors;
  }

  /** The criterion the bounded entry points use: `prec == 0` means none. */
  function PrecCriterion(prec: real): (c: Criterion)
    ensures c == ConvergenceCriteria(Settings(prec, false, 0))
  {
    if prec != 0.0 then BackErrorCriterion(prec) else OscillationCriterion
  }

  /** The bounded entry point with a back-error threshold; `prec == 0` falls back to
      the oscillation criterion. The non-square panic is a precondition. The search
      fails with ErrMaxSteps exactly when, with fewer than Rows pairs found, the next
      search needs more steps than the budget has left. */
  method InverseIterationPrec(m: Matrix, o: Oracle, maxIters: int, prec: real)
    returns (values: seq<real>, vectors: seq<Vector>, err: Option<SearchError>, ghost steps: seq<SearchSteps>)
    requires IsSquare(m)
    ensures |values| == |vectors| == |steps| <= |m|
    ensures err.None? <==> |values| == |m|
    ensures 2 * |values| <= NonNeg(maxIters)
    ensures maxIters <= 0 && |m| > 0 ==> values == [] && vectors == [] && err == Some(ErrMaxSteps)
    ensures AllFound(o, PrecCriterion(prec), values, vectors)
    ensures FoundWith(o, PrecCriterion(prec), values, vectors, steps)
    ensures TotalSteps(steps) <= NonNeg(maxIters)
    ensures err.Some? ==> err.value == ErrMaxSteps
    ensures err.Some? ==> NoSearchFits(o, PrecCriterion(prec), vectors, maxIters - TotalSteps(steps))
  {
    values, vectors, err, steps := Solve(m, o, Settings(prec, false, 0), maxIters);
    assert err.Some? ==> err.value.ErrMaxSteps?;
  }

  /** The bounded entry point without a threshold: the oscillation criterion. */
  method InverseIteration(m: Matrix, o: Oracle, maxIters: int)
    returns (values: seq<real>, vectors: seq<Vector>, err: Option<SearchError>, ghost steps: seq<SearchSteps>)
    requires IsSquare(m)
    ensures |values| == |vectors| == |steps| <= |m|
    ensures err.None? <==> |values| == |m|
    ensures 2 * |values| <= NonNeg(maxIters)
    ensures maxIters <= 0 && |m| > 0 ==> values == [] && vectors == [] && err == Some(ErrMaxSteps)
    ensures AllFound(o, OscillationCriterion, values, vectors)
    ensures FoundWith(o, OscillationCriterion, values, vectors, steps)
    ensures TotalSteps(steps) <= NonNeg(maxIters)
    ensures err.Some? ==> err.value == ErrMaxSteps
    ensures err.Some? ==> NoSearchFits(o, OscillationCriterion, vectors, maxIters - TotalSteps(steps))
  {
    values, vectors, err, steps := InverseIterationPrec(m, o, maxIters, 0.0);
  }

  /** The time slice each phase gets: the total time over twice the number of rows,
      truncated toward zero as Go's integer division does. */
  function TimeSlice(t: int, rows: nat): (slice: int)
    requires rows > 0
    ensures t >= 0 ==> 0 <= slice * (2 * rows) <= t < slice * (2 * rows) + 2 * rows
    ensures t < 0 ==> slice * (2 * rows) - 2 * rows < t <= slice * (2 * rows) <= 0
  {
    TruncDiv(t, 2 * rows)
  }

  /** The wall-clock entry point. Its phases run until the time criterion stops them,
      so every search succeeds and there is one pair per row; with zero rows the
      slice computation divides by zero, so at least one row is required. */
  method InverseIterationTime(m: Matrix, o: Oracle, t: int)
    returns (values: seq<real>, vectors: seq<Vector>)
    requires IsSquare(m) && |m| > 0
    requires forall known :: PhasesHalt(o, TimeCriterion(TimeSlice(t, |m|)), known)
    ensures |values| == |vectors| == |m|
    ensures AllFound(o, TimeCriterion(TimeSlice(t, |m|)), values, vectors)
  {
    var err;
    ghost var steps;
    values, vectors, err, steps := Solve(m, o, Settings(0.0, true, TimeSlice(t, |m|)), 0);
  }
}
