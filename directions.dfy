/**
 * The precomputed route handed to the progress tracker by the directions
 * service: a route is a sequence of legs, a leg a sequence of steps, and each
 * level carries its own total distance (metres) and expected travel time
 * (seconds). These are immutable values; steps compare by value.
 */
module Directions {
  import opened Collections

  datatype RouteStep = RouteStep(instructions: string, distance: real, expectedTravelTime: real)

  datatype RouteLeg = RouteLeg(steps: seq<RouteStep>, distance: real, expectedTravelTime: real)

  datatype Route = Route(legs: seq<RouteLeg>, distance: real, expectedTravelTime: real)

  /** `steps.map { $0.distance }` */
  function StepDistances(steps: seq<RouteStep>): (r: seq<real>)
  {
    seq(|steps|, i requires 0 <= i < |steps| => steps[i].distance)
  }

  /** `steps.map { $0.expectedTravelTime }` */
  function StepTimes(steps: seq<RouteStep>): (r: seq<real>)
  {
    seq(|steps|, i requires 0 <= i < |steps| => steps[i].expectedTravelTime)
  }

  /** `legs.map { $0.distance }` */
  function LegDistances(legs: seq<RouteLeg>): (r: seq<real>)
  {
    seq(|legs|, i requires 0 <= i < |legs| => legs[i].distance)
  }

  /** `legs.map { $0.expectedTravelTime }` */
  function LegTimes(legs: seq<RouteLeg>): (r: seq<real>)
  {
    seq(|legs|, i requires 0 <= i < |legs| => legs[i].expectedTravelTime)
  }

  lemma StepDistancesAppend(a: seq<RouteStep>, b: seq<RouteStep>)
    ensures StepDistances(a + b) == StepDistances(a) + StepDistances(b)
  {
  }

  lemma StepTimesAppend(a: seq<RouteStep>, b: seq<RouteStep>)
    ensures StepTimes(a + b) == StepTimes(a) + StepTimes(b)
  {
  }

  lemma StepDistancesPrefix(steps: seq<RouteStep>, n: int)
    requires 0 <= n <= |steps|
    ensures StepDistances(steps[..n]) == StepDistances(steps)[..n]
  {
  }

  lemma StepTimesSuffix(steps: seq<RouteStep>, n: int)
    requires 0 <= n <= |steps|
    ensures StepTimes(steps[n..]) == StepTimes(steps)[n..]
  {
  }

  lemma LegDistancesPrefix(legs: seq<RouteLeg>, n: int)
    requires 0 <= n <= |legs|
    ensures LegDistances(legs[..n]) == LegDistances(legs)[..n]
  {
  }

  lemma LegTimesSuffix(legs: seq<RouteLeg>, n: int)
    requires 0 <= n <= |legs|
    ensures LegTimes(legs[n..]) == LegTimes(legs)[n..]
  {
  }

  /**
   * A leg whose steps have non-negative distances and times and whose own
   * totals are the sums of its steps'. The tracker relies on this from the
   * directions service and never checks it.
   */
  ghost predicate WellFormedLeg(leg: RouteLeg)
  {
    && NonNegative(StepDistances(leg.steps))
    && NonNegative(StepTimes(leg.steps))
    && leg.distance == Sum(StepDistances(leg.steps))
    && leg.expectedTravelTime == Sum(StepTimes(leg.steps))
  }

  /** A route of well-formed legs whose own totals are the sums of its legs'. */
  ghost predicate WellFormedRoute(route: Route)
  {
    && (forall i :: 0 <= i < |route.legs| ==> WellFormedLeg(route.legs[i]))
    && route.distance == Sum(LegDistances(route.legs))
    && route.expectedTravelTime == Sum(LegTimes(route.legs))
  }

  /** The legs of a well-formed route have non-negative distances and times. */
  lemma WellFormedRouteLegsNonNegative(route: Route)
    requires WellFormedRoute(route)
    ensures NonNegative(LegDistances(route.legs))
    ensures NonNegative(LegTimes(route.legs))
  {
    forall i | 0 <= i < |route.legs|
      ensures 0.0 <= LegDistances(route.legs)[i] && 0.0 <= LegTimes(route.legs)[i]
    {
      assert WellFormedLeg(route.legs[i]);
      SumNonNegative(StepDistances(route.legs[i].steps));
      SumNonNegative(StepTimes(route.legs[i].steps));
    }
  }

  /**
   * The steps of all `legs`, in route order: the route seen as one sequence
   * of steps, used as an independent reference for the leg-by-leg totals.
   */
  function Flatten(legs: seq<RouteLeg>): (r: seq<RouteStep>)
  {
    if legs == [] then [] else Flatten(legs[..|legs| - 1]) + legs[|legs| - 1].steps
  }

  lemma {:induction false} FlattenAppend(a: seq<RouteLeg>, b: seq<RouteLeg>)
    ensures Flatten(a + b) == Flatten(a) + Flatten(b)
  {
    if b == [] {
      assert a + b == a;
    } else {
      var b', last := b[..|b| - 1], b[|b| - 1];
      assert (a + b)[..|a + b| - 1] == a + b';
      assert Flatten(a + b) == Flatten(a + b') + last.steps;
      FlattenAppend(a, b');
      assert Flatten(a) + Flatten(b') + last.steps == Flatten(a) + (Flatten(b') + last.steps);
    }
  }

  /** Summing the flattened step distances gives the sum of the leg distances, when every leg is well formed. */
  lemma {:induction false} FlattenDistances(legs: seq<RouteLeg>)
    requires forall i :: 0 <= i < |legs| ==> WellFormedLeg(legs[i])
    ensures Sum(StepDistances(Flatten(legs))) == Sum(LegDistances(legs))
  {
    if legs != [] {
      var init, last := legs[..|legs| - 1], legs[|legs| - 1];
      FlattenDistances(init);
      StepDistancesAppend(Flatten(init), last.steps);
      SumAppend(StepDistances(Flatten(init)), StepDistances(last.steps));
      assert LegDistances(legs)[..|legs| - 1] == LegDistances(init);
      assert WellFormedLeg(last);
    }
  }

  /** Summing the flattened step times gives the sum of the leg times, when every leg is well formed. */
  lemma {:induction false} FlattenTimes(legs: seq<RouteLeg>)
    requires forall i :: 0 <= i < |legs| ==> WellFormedLeg(legs[i])
    ensures Sum(StepTimes(Flatten(legs))) == Sum(LegTimes(legs))
  {
    if legs != [] {
      var init, last := legs[..|legs| - 1], legs[|legs| - 1];
      FlattenTimes(init);
      StepTimesAppend(Flatten(init), last.steps);
      SumAppend(StepTimes(Flatten(init)), StepTimes(last.steps));
      assert LegTimes(legs)[..|legs| - 1] == LegTimes(init);
      assert WellFormedLeg(last);
    }
  }

  /** The route's steps split around the steps of leg k: those of earlier legs, leg k's own, those of later legs. */
  lemma FlattenAround(legs: seq<RouteLeg>, k: int)
    requires 0 <= k < |legs|
    ensures Flatten(legs) == Flatten(legs[..k]) + legs[k].steps + Flatten(legs[k + 1..])
  {
    var upTo := legs[..k + 1];
    assert legs == upTo + legs[k + 1..];
    FlattenAppend(upTo, legs[k + 1..]);
    assert upTo[..|upTo| - 1] == legs[..k];
    assert Flatten(upTo) == Flatten(legs[..k]) + legs[k].steps;
  }

  /** Position, in route order, of step j of leg k: the number of steps of the earlier legs, plus j. */
  function FlatIndex(legs: seq<RouteLeg>, k: int, j: int): (r: int)
    requires 0 <= k < |legs|
  {
    |Flatten(legs[..k])| + j
  }

  /** In route order, the steps before step j of leg k are the steps of the earlier legs and the first j steps of leg k. */
  lemma FlattenBefore(legs: seq<RouteLeg>, k: int, j: int)
    requires 0 <= k < |legs| && 0 <= j < |legs[k].steps|
    ensures 0 <= FlatIndex(legs, k, j) < |Flatten(legs)|
    ensures Flatten(legs)[FlatIndex(legs, k, j)] == legs[k].steps[j]
    ensures Flatten(legs)[..FlatIndex(legs, k, j)] == Flatten(legs[..k]) + legs[k].steps[..j]
  {
    FlattenAround(legs, k);
    SliceBeforeMiddle(Flatten(legs[..k]), legs[k].steps, Flatten(legs[k + 1..]), j);
  }

  /** In route order, the steps after step j of leg k are the rest of leg k and the steps of the later legs. */
  lemma FlattenAfter(legs: seq<RouteLeg>, k: int, j: int)
    requires 0 <= k < |legs| && 0 <= j < |legs[k].steps|
    ensures 0 <= FlatIndex(legs, k, j) < |Flatten(legs)|
    ensures Flatten(legs)[FlatIndex(legs, k, j) + 1..] == legs[k].steps[j + 1..] + Flatten(legs[k + 1..])
  {
    FlattenAround(legs, k);
    SliceAfterMiddle(Flatten(legs[..k]), legs[k].steps, Flatten(legs[k + 1..]), j);
  }

  /**
   * In route order, the steps before step j of leg k are long exactly as
   * much as the legs before leg k and the first j steps of leg k together.
   */
  lemma FlattenedDistanceBefore(legs: seq<RouteLeg>, k: int, j: int)
    requires forall i :: 0 <= i < |legs| ==> WellFormedLeg(legs[i])
    requires 0 <= k < |legs| && 0 <= j < |legs[k].steps|
    ensures 0 <= FlatIndex(legs, k, j) < |Flatten(legs)|
    ensures Flatten(legs)[FlatIndex(legs, k, j)] == legs[k].steps[j]
    ensures Sum(StepDistances(Flatten(legs)[..FlatIndex(legs, k, j)])) ==
              Sum(LegDistances(legs[..k])) + Sum(StepDistances(legs[k].steps[..j]))
  {
    FlattenBefore(legs, k, j);
    var before, done := Flatten(legs[..k]), legs[k].steps[..j];
    StepDistancesAppend(before, done);
    SumAppend(StepDistances(before), StepDistances(done));
    FlattenDistances(legs[..k]);
  }

  /**
   * In route order, the steps after step j of leg k take exactly as long as
   * the steps of leg k after step j and the legs after leg k together.
   */
  lemma FlattenedTimeAfter(legs: seq<RouteLeg>, k: int, j: int)
    requires forall i :: 0 <= i < |legs| ==> WellFormedLeg(legs[i])
    requires 0 <= k < |legs| && 0 <= j < |legs[k].steps|
    ensures 0 <= FlatIndex(legs, k, j) < |Flatten(legs)|
    ensures Sum(StepTimes(Flatten(legs)[FlatIndex(legs, k, j) + 1..])) ==
              Sum(StepTimes(legs[k].steps[j + 1..])) + Sum(LegTimes(legs[k + 1..]))
  {
    FlattenAfter(legs, k, j);
    var rest, after := legs[k].steps[j + 1..], Flatten(legs[k + 1..]);
    StepTimesAppend(rest, after);
    SumAppend(StepTimes(rest), StepTimes(after));
    FlattenTimes(legs[k + 1..]);
  }
}
