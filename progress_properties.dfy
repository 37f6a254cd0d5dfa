/**
 * What the three progress levels promise together: the derived fractions stay
 * within [0, 1], durations shrink strictly as the traveller moves on, moving
 * to the next step or leg at the end of the current one changes no total,
 * the neighbour lookups agree with the cursor, and the leg-by-leg totals agree
 * with the same totals taken over the route's steps in order.
 */
module ProgressProperties {
  import opened Wrappers
  import opened Collections
  import opened Directions
  import opened Progress
  import opened Shares

  // ---------------------------------------------------------------- step level

  /** The fraction of a step travelled, times the step's length, is the distance travelled; it lies in [0, 1] while that distance is within the step. */
  lemma StepFractionTraveledBounded(p: RouteStepProgress)
    requires p.step.distance > 0.0
    ensures p.FractionTraveled() * p.step.distance == p.distanceTraveled
    ensures 0.0 <= p.distanceTraveled <= p.step.distance ==> 0.0 <= p.FractionTraveled() <= 1.0
  {
    ShareOfLength(p.distanceTraveled, p.step.distance);
  }

  /** A fresh step has its whole expected travel time left; a finished step has none. */
  lemma StepDurationAtEnds(p: RouteStepProgress)
    requires p.step.distance > 0.0
    ensures p.distanceTraveled == 0.0 ==> p.DurationRemaining() == p.step.expectedTravelTime
    ensures p.distanceTraveled == p.step.distance ==> p.DurationRemaining() == 0.0
  {
    ShareLeftAtEnds(p.distanceTraveled, p.step.distance, p.step.expectedTravelTime);
  }

  /** The time left on a step is its expected travel time in proportion to the distance left. */
  lemma StepDurationProportionalToDistanceLeft(p: RouteStepProgress)
    requires p.step.distance > 0.0
    ensures p.DurationRemaining() * p.step.distance == p.DistanceRemaining() * p.step.expectedTravelTime
  {
    ShareLeftScaled(p.distanceTraveled, p.step.distance, p.step.expectedTravelTime);
  }

  /** While the distance travelled is within the step, the time left lies between 0 and the step's expected time. */
  lemma StepDurationRemainingBounded(p: RouteStepProgress)
    requires p.step.distance > 0.0 && 0.0 <= p.step.expectedTravelTime
    requires 0.0 <= p.distanceTraveled <= p.step.distance
    ensures 0.0 <= p.DurationRemaining() <= p.step.expectedTravelTime
  {
    ShareLeftBounded(p.distanceTraveled, p.step.distance, p.step.expectedTravelTime);
  }

  /** With a positive expected travel time, travelling further along a step leaves strictly less time on it. */
  lemma StepDurationDecreasesAsDistanceGrows(p: RouteStepProgress, q: RouteStepProgress)
    requires p.step == q.step && p.step.distance > 0.0 && p.step.expectedTravelTime > 0.0
    requires p.distanceTraveled < q.distanceTraveled
    ensures q.DurationRemaining() < p.DurationRemaining()
  {
    ShareLeftShrinks(p.distanceTraveled, q.distanceTraveled, p.step.distance, p.step.expectedTravelTime);
  }

  // ----------------------------------------------------------------- leg level

  /** Within a well-formed leg, the distance travelled along the leg lies between 0 and the leg's length. */
  lemma LegDistanceTraveledBounded(p: RouteLegProgress)
    requires p.Valid() && WellFormedLeg(p.leg)
    requires 0.0 <= p.currentStepProgress.distanceTraveled <= p.CurrentStep().distance
    ensures 0.0 <= p.DistanceTraveled() <= p.leg.distance
  {
    SumPrefixBound(StepDistances(p.leg.steps), p.stepIndex);
    StepDistancesPrefix(p.leg.steps, p.stepIndex);
  }

  /** Within a well-formed leg of positive length, the fraction travelled lies in [0, 1]. */
  lemma LegFractionTraveledBounded(p: RouteLegProgress)
    requires p.Valid() && WellFormedLeg(p.leg) && p.leg.distance > 0.0
    requires 0.0 <= p.currentStepProgress.distanceTraveled <= p.CurrentStep().distance
    ensures 0.0 <= p.FractionTraveled() <= 1.0
  {
    LegDistanceTraveledBounded(p);
  }

  /** Within a well-formed leg, the time left on the leg lies between 0 and the leg's expected travel time. */
  lemma LegDurationRemainingBounded(p: RouteLegProgress)
    requires p.Valid() && WellFormedLeg(p.leg) && p.CurrentStep().distance > 0.0
    requires 0.0 <= p.currentStepProgress.distanceTraveled <= p.CurrentStep().distance
    ensures 0.0 <= p.DurationRemaining() <= p.leg.expectedTravelTime
  {
    SumSuffixBound(StepTimes(p.leg.steps), p.stepIndex);
    StepTimesSuffix(p.leg.steps, p.stepIndex + 1);
    StepDurationRemainingBounded(p.currentStepProgress);
  }

  /**
   * On the same leg and step, more distance along the step means more
   * distance along the leg and, with a positive expected step time, strictly
   * less time left on the leg.
   */
  lemma LegDurationDecreasesAsDistanceGrows(p: RouteLegProgress, q: RouteLegProgress)
    requires p.Valid() && q.Valid() && p.leg == q.leg && p.stepIndex == q.stepIndex
    requires p.CurrentStep().distance > 0.0 && p.CurrentStep().expectedTravelTime > 0.0
    requires p.currentStepProgress.distanceTraveled < q.currentStepProgress.distanceTraveled
    ensures p.DistanceTraveled() < q.DistanceTraveled()
    ensures q.DurationRemaining() < p.DurationRemaining()
  {
    StepDurationDecreasesAsDistanceGrows(p.currentStepProgress, q.currentStepProgress);
  }

  /**
   * Finishing step i and then moving to step i + 1 changes neither the
   * distance travelled along the leg nor the time left on it.
   */
  lemma LegStepAdvanceIsContinuous(p: RouteLegProgress, q: RouteLegProgress)
    requires p.Valid() && q.Valid() && p.leg == q.leg && q.stepIndex == p.stepIndex + 1
    requires p.currentStepProgress.distanceTraveled == p.CurrentStep().distance
    requires q.currentStepProgress.distanceTraveled == 0.0
    ensures q.DistanceTraveled() == p.DistanceTraveled()
    ensures p.CurrentStep().distance > 0.0 && q.CurrentStep().distance > 0.0 ==>
              q.DurationRemaining() == p.DurationRemaining()
  {
    var steps, i := p.leg.steps, p.stepIndex;
    if p.CurrentStep().distance > 0.0 && q.CurrentStep().distance > 0.0 {
      StepDurationAtEnds(p.currentStepProgress);
      StepDurationAtEnds(q.currentStepProgress);
    }
    SumPrefixStep(StepDistances(steps), i);
    StepDistancesPrefix(steps, i);
    StepDistancesPrefix(steps, i + 1);
    SumSuffixStep(StepTimes(steps), i + 1);
    StepTimesSuffix(steps, i + 1);
    StepTimesSuffix(steps, i + 2);
  }

  /**
   * At the start of a leg nothing of it has been travelled; at the end of
   * its last step all of a well-formed leg has.
   */
  lemma LegDistanceAtEnds(p: RouteLegProgress)
    requires p.Valid()
    ensures p.stepIndex == 0 && p.currentStepProgress.distanceTraveled == 0.0 ==>
              p.DistanceTraveled() == 0.0
    ensures WellFormedLeg(p.leg) && p.stepIndex == |p.leg.steps| - 1 &&
            p.currentStepProgress.distanceTraveled == p.CurrentStep().distance ==>
              p.DistanceTraveled() == p.leg.distance
  {
    var s := p.leg.steps;
    assert StepDistances(s[..0]) == [];
    SumPrefixStep(StepDistances(s), |s| - 1);
    StepDistancesPrefix(s, |s| - 1);
    assert StepDistances(s)[..|s|] == StepDistances(s);
  }

  /**
   * At the start of a well-formed leg its whole expected travel time is
   * left; at the end of its last step none is.
   */
  lemma LegDurationAtEnds(p: RouteLegProgress)
    requires p.Valid() && p.CurrentStep().distance > 0.0
    ensures WellFormedLeg(p.leg) && p.stepIndex == 0 && p.currentStepProgress.distanceTraveled == 0.0 ==>
              p.DurationRemaining() == p.leg.expectedTravelTime
    ensures p.stepIndex == |p.leg.steps| - 1 &&
            p.currentStepProgress.distanceTraveled == p.CurrentStep().distance ==>
              p.DurationRemaining() == 0.0
  {
    var s := p.leg.steps;
    StepDurationAtEnds(p.currentStepProgress);
    assert StepTimes(s[|s|..]) == [];
    SumSuffixStep(StepTimes(s), 0);
    StepTimesSuffix(s, 1);
    assert StepTimes(s)[0..] == StepTimes(s);
  }

  // ------------------------------------------------------------ step lookups

  /** No step occurs twice in `steps`. */
  predicate Distinct(steps: seq<RouteStep>)
  {
    forall i, j :: 0 <= i < j < |steps| ==> steps[i] != steps[j]
  }

  lemma DistinctFirstIndex(steps: seq<RouteStep>, k: int)
    requires Distinct(steps) && 0 <= k < |steps|
    ensures IsFirstIndex(steps, steps[k], k)
  {
  }

  /**
   * The current step is recognised as current exactly when it does not also
   * occur earlier in the leg: a copy of an earlier step at the current index
   * is not the current step.
   */
  lemma CurrentStepIsCurrentIffFirstOccurrence(p: RouteLegProgress)
    requires p.Valid()
    ensures p.IsCurrentStep(p.CurrentStep()) <==> p.CurrentStep() !in p.leg.steps[..p.stepIndex]
  {
  }

  /** On a leg without repeated steps, a step is current exactly when it is the step at the cursor. */
  lemma IsCurrentStepOnDistinctLeg(p: RouteLegProgress, s: RouteStep)
    requires p.Valid() && Distinct(p.leg.steps)
    ensures p.IsCurrentStep(s) <==> s == p.CurrentStep()
  {
    DistinctFirstIndex(p.leg.steps, p.stepIndex);
  }

  /** When the current step occurs nowhere earlier, its lookups agree with the cursor's neighbours. */
  lemma NeighboursOfCurrentStep(p: RouteLegProgress)
    requires p.Valid() && p.CurrentStep() !in p.leg.steps[..p.stepIndex]
    ensures p.StepAfter(p.CurrentStep()) == p.UpComingStep()
    ensures p.StepBefore(p.CurrentStep()) ==
              if p.stepIndex > 0 then Some(p.leg.steps[p.stepIndex - 1]) else None
  {
    assert IsFirstIndex(p.leg.steps, p.CurrentStep(), p.stepIndex);
  }

  /** Moving the cursor one step on makes the upcoming step current and the follow-on step upcoming. */
  lemma UpComingStepBecomesCurrent(p: RouteLegProgress, q: RouteLegProgress)
    requires p.Valid() && q.Valid() && p.leg == q.leg && q.stepIndex == p.stepIndex + 1
    ensures p.UpComingStep() == Some(q.CurrentStep())
    ensures q.UpComingStep() == p.FollowOnStep()
  {
  }

  /** On a leg without repeated steps, `stepBefore` and `stepAfter` undo each other. */
  lemma StepNeighboursRoundTrip(p: RouteLegProgress, s: RouteStep)
    requires Distinct(p.leg.steps)
    ensures p.StepBefore(s).Some? ==> p.StepAfter(p.StepBefore(s).value) == Some(s)
    ensures p.StepAfter(s).Some? ==> p.StepBefore(p.StepAfter(s).value) == Some(s)
  {
    var steps := p.leg.steps;
    if s in steps {
      var i := IndexOf(steps, s).value;
      if i > 0 {
        DistinctFirstIndex(steps, i - 1);
      }
      if i + 1 < |steps| {
        DistinctFirstIndex(steps, i + 1);
      }
    }
  }

  // --------------------------------------------------------------- route level

  /** On a well-formed route, the distance travelled and the distance remaining both lie between 0 and the route's length. */
  lemma RouteDistanceTraveledBounded(p: RouteProgress)
    requires p.Valid() && WellFormedRoute(p.route)
    requires 0.0 <= p.currentLegProgress.currentStepProgress.distanceTraveled <= p.currentLegProgress.CurrentStep().distance
    ensures 0.0 <= p.DistanceTraveled() <= p.route.distance
    ensures 0.0 <= p.DistanceRemaining() <= p.route.distance
  {
    assert WellFormedLeg(p.route.legs[p.legIndex]);
    LegDistanceTraveledBounded(p.currentLegProgress);
    WellFormedRouteLegsNonNegative(p.route);
    SumPrefixBound(LegDistances(p.route.legs), p.legIndex);
    LegDistancesPrefix(p.route.legs, p.legIndex);
  }

  /** On a well-formed route of positive length, the fraction travelled lies in [0, 1]. */
  lemma RouteFractionTraveledBounded(p: RouteProgress)
    requires p.Valid() && WellFormedRoute(p.route) && p.route.distance > 0.0
    requires 0.0 <= p.currentLegProgress.currentStepProgress.distanceTraveled <= p.currentLegProgress.CurrentStep().distance
    ensures 0.0 <= p.FractionTraveled() <= 1.0
  {
    RouteDistanceTraveledBounded(p);
  }

  /** On a well-formed route, the time left lies between 0 and the route's expected travel time. */
  lemma RouteDurationRemainingBounded(p: RouteProgress)
    requires p.Valid() && WellFormedRoute(p.route) && p.currentLegProgress.CurrentStep().distance > 0.0
    requires 0.0 <= p.currentLegProgress.currentStepProgress.distanceTraveled <= p.currentLegProgress.CurrentStep().distance
    ensures 0.0 <= p.DurationRemaining() <= p.route.expectedTravelTime
  {
    assert WellFormedLeg(p.route.legs[p.legIndex]);
    LegDurationRemainingBounded(p.currentLegProgress);
    WellFormedRouteLegsNonNegative(p.route);
    SumSuffixBound(LegTimes(p.route.legs), p.legIndex);
    LegTimesSuffix(p.route.legs, p.legIndex + 1);
  }

  /**
   * On the same route, leg and step, more distance along the step means more
   * distance along the route and, with a positive expected step time,
   * strictly less time left on the route.
   */
  lemma RouteDurationDecreasesAsDistanceGrows(p: RouteProgress, q: RouteProgress)
    requires p.Valid() && q.Valid() && p.route == q.route && p.legIndex == q.legIndex
    requires p.currentLegProgress.stepIndex == q.currentLegProgress.stepIndex
    requires p.currentLegProgress.CurrentStep().distance > 0.0
    requires p.currentLegProgress.CurrentStep().expectedTravelTime > 0.0
    requires p.currentLegProgress.currentStepProgress.distanceTraveled <
             q.currentLegProgress.currentStepProgress.distanceTraveled
    ensures p.DistanceTraveled() < q.DistanceTraveled()
    ensures q.DurationRemaining() < p.DurationRemaining()
  {
    LegDurationDecreasesAsDistanceGrows(p.currentLegProgress, q.currentLegProgress);
  }

  /**
   * Finishing the last step of leg k and then moving to the start of leg
   * k + 1 leaves the distance travelled along the route unchanged, provided
   * the finished leg's length is the sum of its steps'.
   */
  lemma RouteLegAdvanceKeepsDistance(p: RouteProgress, q: RouteProgress)
    requires p.Valid() && q.Valid() && p.route == q.route && q.legIndex == p.legIndex + 1
    requires WellFormedLeg(p.CurrentLeg())
    requires p.currentLegProgress.stepIndex == |p.CurrentLeg().steps| - 1
    requires p.currentLegProgress.currentStepProgress.distanceTraveled == p.currentLegProgress.CurrentStep().distance
    requires q.currentLegProgress.stepIndex == 0
    requires q.currentLegProgress.currentStepProgress.distanceTraveled == 0.0
    ensures q.DistanceTraveled() == p.DistanceTraveled()
  {
    var legs, k := p.route.legs, p.legIndex;
    LegDistanceAtEnds(p.currentLegProgress);
    LegDistanceAtEnds(q.currentLegProgress);
    SumPrefixStep(LegDistances(legs), k);
    LegDistancesPrefix(legs, k);
    LegDistancesPrefix(legs, k + 1);
  }

  /**
   * Finishing the last step of leg k and then moving to the start of leg
   * k + 1 leaves the time left on the route unchanged, provided the new
   * leg's expected time is the sum of its steps'.
   */
  lemma RouteLegAdvanceKeepsDuration(p: RouteProgress, q: RouteProgress)
    requires p.Valid() && q.Valid() && p.route == q.route && q.legIndex == p.legIndex + 1
    requires WellFormedLeg(q.CurrentLeg())
    requires p.currentLegProgress.stepIndex == |p.CurrentLeg().steps| - 1
    requires p.currentLegProgress.CurrentStep().distance > 0.0
    requires p.currentLegProgress.currentStepProgress.distanceTraveled == p.currentLegProgress.CurrentStep().distance
    requires q.currentLegProgress.stepIndex == 0
    requires q.currentLegProgress.CurrentStep().distance > 0.0
    requires q.currentLegProgress.currentStepProgress.distanceTraveled == 0.0
    ensures q.DurationRemaining() == p.DurationRemaining()
  {
    var legs, k := p.route.legs, p.legIndex;
    LegDurationAtEnds(p.currentLegProgress);
    LegDurationAtEnds(q.currentLegProgress);
    SumSuffixStep(LegTimes(legs), k + 1);
    LegTimesSuffix(legs, k + 1);
    LegTimesSuffix(legs, k + 2);
  }

  // --------------------------------------- agreement with the flattened route

  /** The position of the current step among all of the route's steps in order. */
  function FlatStepIndex(p: RouteProgress): (r: int)
    reads p, p.currentLegProgress
    requires p.Valid()
  {
    FlatIndex(p.route.legs, p.legIndex, p.currentLegProgress.stepIndex)
  }

  /**
   * The distance travelled along the route is the length of every step
   * before the current one, in route order, plus the distance into the
   * current step, when every leg's length is the sum of its steps'.
   */
  lemma RouteDistanceTraveledMatchesFlatRoute(p: RouteProgress)
    requires p.Valid()
    requires forall i :: 0 <= i < |p.route.legs| ==> WellFormedLeg(p.route.legs[i])
    ensures 0 <= FlatStepIndex(p) < |Flatten(p.route.legs)|
    ensures Flatten(p.route.legs)[FlatStepIndex(p)] == p.currentLegProgress.CurrentStep()
    ensures p.DistanceTraveled() ==
              Sum(StepDistances(Flatten(p.route.legs)[..FlatStepIndex(p)])) +
              p.currentLegProgress.currentStepProgress.distanceTraveled
  {
    FlattenedDistanceBefore(p.route.legs, p.legIndex, p.currentLegProgress.stepIndex);
  }

  /**
   * The time left on the route is the expected time of every step after the
   * current one, in route order, plus the time left on the current step,
   * when every leg's expected time is the sum of its steps'.
   */
  lemma RouteDurationRemainingMatchesFlatRoute(p: RouteProgress)
    requires p.Valid() && p.currentLegProgress.CurrentStep().distance > 0.0
    requires forall i :: 0 <= i < |p.route.legs| ==> WellFormedLeg(p.route.legs[i])
    ensures 0 <= FlatStepIndex(p) < |Flatten(p.route.legs)|
    ensures p.DurationRemaining() ==
              Sum(StepTimes(Flatten(p.route.legs)[FlatStepIndex(p) + 1..])) +
              p.currentLegProgress.currentStepProgress.DurationRemaining()
  {
    var legs, k, j := p.route.legs, p.legIndex, p.currentLegProgress.stepIndex;
    FlattenedTimeAfter(legs, k, j);
  }

  // ------------------------------------------------------------------ a client

  /**
   * A route of two legs, 1000 m and 500 m long. The location tracker reports
   * 250 m along the first step; then the traveller moves on to the second leg.
   */
  method TwoLegRouteScenario()
  {
    var a := RouteStep("depart", 1000.0, 100.0);
    var b := RouteStep("arrive", 500.0, 50.0);
    var route := Route([RouteLeg([a], 1000.0, 100.0), RouteLeg([b], 500.0, 50.0)], 1500.0, 150.0);
    var progress := new RouteProgress(route, 0);
    progress.currentLegProgress.currentStepProgress.distanceTraveled := 250.0;
    assert StepDistances([a][..0]) == [];
    assert LegDistances(route.legs[..0]) == [];
    assert progress.DistanceTraveled() == 250.0;
    assert progress.DistanceRemaining() == 1250.0;
    assert progress.FractionTraveled() == 250.0 / 1500.0;

    progress.SetLegIndex(1);
    assert route.legs[..1] == [route.legs[0]];
    assert progress.currentLegProgress.stepIndex == 0;
    assert progress.DistanceTraveled() == 1000.0;
  }
}
