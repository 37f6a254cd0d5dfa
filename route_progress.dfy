/**
 * Progress of a traveller along a precomputed route, tracked on three levels.
 * A RouteProgress knows which leg is current and owns the progress along that
 * leg; a RouteLegProgress knows which step of its leg is current and owns the
 * progress along that step; a RouteStepProgress holds the distance travelled
 * within its step. Changing a leg or step index replaces the owned child with
 * a fresh one. Every distance, duration and fraction is derived on demand from
 * the static route and these few mutable fields.
 */
module Progress {
  import opened Wrappers
  import opened Collections
  import opened Directions
  import Alerts
  import opened Shares

  /** Progress within one step: the leaf of the hierarchy. */
  class RouteStepProgress {
    const step: RouteStep

    /** Distance travelled along the step, set by the location tracker. It is not checked against the step's length. */
    var distanceTraveled: real

    /** Distance from the user to the end of the step, absent until the location tracker computes one. */
    var userDistanceToManeuverLocation: Option<real>

    constructor (step: RouteStep)
      ensures this.step == step
      ensures distanceTraveled == 0.0
      ensures userDistanceToManeuverLocation == None
    {
      this.step := step;
      distanceTraveled := 0.0;
      userDistanceToManeuverLocation := None;
    }

    /** Distance left to the end of the step. */
    function DistanceRemaining(): (r: real)
      reads this
      ensures r + distanceTraveled == step.distance
      ensures 0.0 <= distanceTraveled <= step.distance ==> 0.0 <= r <= step.distance
    {
      step.distance - distanceTraveled
    }

    /**
     * Share of the step's distance already travelled. What it means is stated
     * by lemmas about the step rather than by a contract of its own: the fact
     * is non-linear, and as a postcondition it would burden every proof that
     * mentions the function.
     */
    function FractionTraveled(): (r: real)
      reads this
      requires step.distance > 0.0
    {
      distanceTraveled / step.distance
    }

    /**
     * Time left on the step: its expected travel time scaled by the share of
     * distance still ahead. Like the fraction, it is described by lemmas
     * about the step.
     */
    function DurationRemaining(): (r: real)
      reads this
      requires step.distance > 0.0
    {
      (1.0 - FractionTraveled()) * step.expectedTravelTime
    }
  }

  /** Progress within one leg: which step is current, and the progress along it. */
  class RouteLegProgress {
    const leg: RouteLeg
    var stepIndex: int
    var currentStepProgress: RouteStepProgress

    /** A tag kept for the alert-decision logic; this class only stores it. */
    var alertUserLevel: Alerts.AlertLevel

    /** The step index is in range and the owned step progress is for the step it selects. */
    ghost predicate Valid()
      reads this
    {
      0 <= stepIndex < |leg.steps| && currentStepProgress.step == leg.steps[stepIndex]
    }

    constructor (leg: RouteLeg, stepIndex: int)
      requires 0 <= stepIndex < |leg.steps|
      ensures Valid()
      ensures this.leg == leg && this.stepIndex == stepIndex
      ensures fresh(currentStepProgress)
      ensures currentStepProgress.distanceTraveled == 0.0
      ensures currentStepProgress.userDistanceToManeuverLocation == None
      ensures alertUserLevel == Alerts.AlertLevel.None
    {
      this.leg := leg;
      this.stepIndex := stepIndex;
      alertUserLevel := Alerts.AlertLevel.None;
      currentStepProgress := new RouteStepProgress(leg.steps[stepIndex]);
    }

    /**
     * Moves to step `i`, replacing the step progress with a fresh one, so the
     * distance travelled restarts from zero whatever it was before.
     */
    method SetStepIndex(i: int)
      requires Valid()
      requires 0 <= i < |leg.steps|
      modifies this
      ensures Valid()
      ensures stepIndex == i
      ensures fresh(currentStepProgress)
      ensures currentStepProgress.distanceTraveled == 0.0
      ensures currentStepProgress.userDistanceToManeuverLocation == None
      ensures alertUserLevel == old(alertUserLevel)
      ensures DistanceTraveled() == Sum(StepDistances(leg.steps[..i]))
      ensures leg.steps[i].distance > 0.0 ==> DurationRemaining() == Sum(StepTimes(leg.steps[i..]))
    {
      stepIndex := i;
      currentStepProgress := new RouteStepProgress(leg.steps[i]);
      if leg.steps[i].distance > 0.0 {
        var started := currentStepProgress;
        assert started.DurationRemaining() == leg.steps[i].expectedTravelTime by {
          ShareLeftAtEnds(started.distanceTraveled, started.step.distance, started.step.expectedTravelTime);
        }
        SumSuffixStep(StepTimes(leg.steps), i);
        StepTimesSuffix(leg.steps, i);
        StepTimesSuffix(leg.steps, i + 1);
      }
    }

    function CurrentStep(): (r: RouteStep)
      reads this
      requires Valid()
      ensures r == currentStepProgress.step
      ensures r in leg.steps
    {
      leg.steps[stepIndex]
    }

    /** Distance along the leg: the lengths of the steps before the current one, plus the distance into the current step. */
    function DistanceTraveled(): (r: real)
      reads this, currentStepProgress
      requires Valid()
    {
      Sum(StepDistances(leg.steps[..stepIndex])) + currentStepProgress.distanceTraveled
    }

    /** Time left on the leg: the times of the steps after the current one, plus the time left on the current step. */
    function DurationRemaining(): (r: real)
      reads this, currentStepProgress
      requires Valid() && CurrentStep().distance > 0.0
    {
      Sum(StepTimes(leg.steps[stepIndex + 1..])) + currentStepProgress.DurationRemaining()
    }

    /** Share of the leg's distance already travelled. */
    function FractionTraveled(): (r: real)
      reads this, currentStepProgress
      requires Valid() && leg.distance > 0.0
      ensures r * leg.distance == DistanceTraveled()
    {
      DistanceTraveled() / leg.distance
    }

    /** The step after the current one, if there is one. */
    function UpComingStep(): (r: Option<RouteStep>)
      reads this
      requires Valid()
      ensures r.Some? <==> stepIndex + 1 < |leg.steps|
      ensures r.Some? ==> r.value == leg.steps[stepIndex + 1]
    {
      if stepIndex + 1 < |leg.steps| then Some(leg.steps[stepIndex + 1]) else None
    }

    /** The step two after the current one, if there is one. */
    function FollowOnStep(): (r: Option<RouteStep>)
      reads this
      requires Valid()
      ensures r.Some? <==> stepIndex + 2 < |leg.steps|
      ensures r.Some? ==> r.value == leg.steps[stepIndex + 2]
    {
      if stepIndex + 2 < |leg.steps| then Some(leg.steps[stepIndex + 2]) else None
    }

    /**
     * The step just before the first occurrence of `step` in the leg; nothing
     * when `step` does not occur or its first occurrence opens the leg.
     */
    function StepBefore(step: RouteStep): (r: Option<RouteStep>)
      ensures step !in leg.steps ==> r == None
      ensures forall i :: IsFirstIndex(leg.steps, step, i) ==>
                r == if i > 0 then Some(leg.steps[i - 1]) else None
    {
      match IndexOf(leg.steps, step)
      case None => None
      case Some(i) =>
        FirstIndexUniqueFor(leg.steps, step, i);
        if i > 0 then Some(leg.steps[i - 1]) else None
    }

    /**
     * The step just after the first occurrence of `step` in the leg; nothing
     * when `step` does not occur or its first occurrence closes the leg.
     */
    function StepAfter(step: RouteStep): (r: Option<RouteStep>)
      ensures step !in leg.steps ==> r == None
      ensures forall i :: IsFirstIndex(leg.steps, step, i) ==>
                r == if i + 1 < |leg.steps| then Some(leg.steps[i + 1]) else None
    {
      match IndexOf(leg.steps, step)
      case None => None
      case Some(i) =>
        FirstIndexUniqueFor(leg.steps, step, i);
        if i + 1 < |leg.steps| then Some(leg.steps[i + 1]) else None
    }

    /** Whether the first occurrence of `step` in the leg is at the current step index. */
    function IsCurrentStep(step: RouteStep): (r: bool)
      reads this
      ensures r <==> IsFirstIndex(leg.steps, step, stepIndex)
    {
      match IndexOf(leg.steps, step)
      case None => false
      case Some(i) =>
        FirstIndexUniqueFor(leg.steps, step, i);
        i == stepIndex
    }
  }

  /** Progress along a whole route: which leg is current, and the progress along it. */
  class RouteProgress {
    const route: Route
    var legIndex: int
    var currentLegProgress: RouteLegProgress

    /** The leg index is in range and the owned leg progress is a valid one for the leg it selects. */
    ghost predicate Valid()
      reads this, currentLegProgress
    {
      && 0 <= legIndex < |route.legs|
      && currentLegProgress.leg == route.legs[legIndex]
      && currentLegProgress.Valid()
    }

    constructor (route: Route, legIndex: int)
      requires 0 <= legIndex < |route.legs|
      requires |route.legs[legIndex].steps| > 0
      ensures Valid()
      ensures this.route == route && this.legIndex == legIndex
      ensures fresh(currentLegProgress) && fresh(currentLegProgress.currentStepProgress)
      ensures currentLegProgress.stepIndex == 0
      ensures currentLegProgress.currentStepProgress.distanceTraveled == 0.0
      ensures currentLegProgress.currentStepProgress.userDistanceToManeuverLocation == None
      ensures currentLegProgress.alertUserLevel == Alerts.AlertLevel.None
    {
      this.route := route;
      this.legIndex := legIndex;
      currentLegProgress := new RouteLegProgress(route.legs[legIndex], 0);
    }

    /**
     * Moves to leg `i`, replacing the leg progress with a fresh one at its
     * first step, so everything below the route restarts whatever it was.
     */
    method SetLegIndex(i: int)
      requires Valid()
      requires 0 <= i < |route.legs|
      requires |route.legs[i].steps| > 0
      modifies this
      ensures Valid()
      ensures legIndex == i
      ensures fresh(currentLegProgress) && fresh(currentLegProgress.currentStepProgress)
      ensures currentLegProgress.stepIndex == 0
      ensures currentLegProgress.currentStepProgress.distanceTraveled == 0.0
      ensures currentLegProgress.currentStepProgress.userDistanceToManeuverLocation == None
      ensures currentLegProgress.alertUserLevel == Alerts.AlertLevel.None
      ensures DistanceTraveled() == Sum(LegDistances(route.legs[..i]))
      ensures route.legs[i].steps[0].distance > 0.0 ==>
                DurationRemaining() == Sum(StepTimes(route.legs[i].steps)) + Sum(LegTimes(route.legs[i + 1..]))
    {
      legIndex := i;
      currentLegProgress := new RouteLegProgress(route.legs[i], 0);
      var steps := route.legs[i].steps;
      assert StepDistances(steps[..0]) == [];
      if steps[0].distance > 0.0 {
        var started := currentLegProgress.currentStepProgress;
        assert started.DurationRemaining() == steps[0].expectedTravelTime by {
          ShareLeftAtEnds(started.distanceTraveled, started.step.distance, started.step.expectedTravelTime);
        }
        SumSuffixStep(StepTimes(steps), 0);
        StepTimesSuffix(steps, 1);
        assert StepTimes(steps)[0..] == StepTimes(steps);
        assert currentLegProgress.DurationRemaining() == Sum(StepTimes(steps));
      }
    }

    function CurrentLeg(): (r: RouteLeg)
      reads this, currentLegProgress
      requires Valid()
      ensures r == currentLegProgress.leg
      ensures r in route.legs
    {
      route.legs[legIndex]
    }

    /** Distance along the route: the lengths of the legs before the current one, plus the distance into the current leg. */
    function DistanceTraveled(): (r: real)
      reads this, currentLegProgress, currentLegProgress.currentStepProgress
      requires Valid()
    {
      Sum(LegDistances(route.legs[..legIndex])) + currentLegProgress.DistanceTraveled()
    }

    /** Time left on the route: the times of the legs after the current one, plus the time left on the current leg. */
    function DurationRemaining(): (r: real)
      reads this, currentLegProgress, currentLegProgress.currentStepProgress
      requires Valid() && currentLegProgress.CurrentStep().distance > 0.0
    {
      Sum(LegTimes(route.legs[legIndex + 1..])) + currentLegProgress.DurationRemaining()
    }

    /** Share of the route's distance already travelled. */
    function FractionTraveled(): (r: real)
      reads this, currentLegProgress, currentLegProgress.currentStepProgress
      requires Valid() && route.distance > 0.0
      ensures r * route.distance == DistanceTraveled()
    {
      DistanceTraveled() / route.distance
    }

    /** Distance left to the end of the route. */
    function DistanceRemaining(): (r: real)
      reads this, currentLegProgress, currentLegProgress.currentStepProgress
      requires Valid()
      ensures r + DistanceTraveled() == route.distance
    {
      route.distance - DistanceTraveled()
    }
  }
}
