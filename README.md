# Route progress tracking, modelled in Dafny

This project models the progress tracker of the Mapbox navigation SDK for iOS
(`MapboxNavigation/RouteProgress.swift`). A precomputed route is a sequence of
legs, and each leg is a sequence of steps. The tracker keeps three nested
cursors over that route:

- `RouteProgress` knows the current leg (`legIndex`) and owns a
  `RouteLegProgress` for it.
- `RouteLegProgress` knows the current step (`stepIndex`), owns a
  `RouteStepProgress` for it and stores an `AlertLevel` tag.
- `RouteStepProgress` holds the distance travelled within the step and an
  optional distance to the next manoeuvre.

Changing an index replaces the owned child with a fresh one. Distance
travelled, distance remaining, duration remaining and fraction travelled are
derived on demand at each level. They combine totals of completed legs or
steps with the live progress below.

Files:

- `wrappers.dfy`: `Option`, standing for Swift's optionals.
- `collections.dfy`: `Sum`, the left fold that `reduce(0, +)` performs, with
  its prefix and suffix lemmas. `IndexOf` is Swift's `index(of:)`, which finds
  the first occurrence.
- `directions.dfy`: the immutable `Route`, `RouteLeg` and `RouteStep` values of
  the directions library. `WellFormedLeg` and `WellFormedRoute` state that
  every step has a non-negative distance and expected time and that every
  total is the sum of its parts; the tracker assumes this and never checks
  it. `Flatten` lists the route's steps in order and serves as an
  independent reference for the leg-by-leg totals.
- `alerts.dfy`: `AlertLevel` and its integer raw values.
- `shares.dfy`: the arithmetic of the two non-linear step formulas, the share
  travelled `x / d` and the time left `(1 - x / d) * t`.
- `route_progress.dfy`: the three classes. The index setters are methods
  whose contracts state the whole new state. The derived values are functions
  that read the objects.
- `progress_properties.dfy`: what the levels promise together. Fractions stay
  in [0, 1], and durations shrink strictly as the traveller moves along a
  step whose expected time is positive. Moving on to
  the next step or leg at the end of the current one changes no total. The
  neighbour lookups agree with the cursor. The two-level totals agree with
  totals taken over the flattened route.

Distances and times are `real`. Steps compare by value. With repeated
steps, every lookup by step uses the step's first occurrence.
`CurrentStepIsCurrentIffFirstOccurrence` states this outright: in the model,
a copy of an earlier step at the cursor is not "the current step".

The source has no zero-distance policy: a zero step, leg or route distance
makes `fractionTraveled` divide by zero, so the fraction and duration
functions require a positive distance. The source has no leg-level
`distanceRemaining`, and neither does the model.

## Model

| member | source | states |
|---|---|---|
| `Progress.RouteStepProgress.constructor` | MapboxNavigation/RouteProgress.swift:167-197 | a new step progress is for the given step, has travelled 0 and has no distance to the manoeuvre |
| `Progress.RouteStepProgress.DistanceRemaining` | MapboxNavigation/RouteProgress.swift:183-185 | remaining plus travelled is exactly the step's distance; it lies in [0, distance] while the distance travelled does |
| `Progress.RouteStepProgress.FractionTraveled` | MapboxNavigation/RouteProgress.swift:187-189 | no contract of its own: distance travelled over the step's distance; its identity and [0, 1] bound are in StepFractionTraveledBounded |
| `Progress.RouteStepProgress.DurationRemaining` | MapboxNavigation/RouteProgress.swift:191-193 | no contract of its own: the expected time scaled by the share of distance left; its meaning is in StepDurationAtEnds, StepDurationProportionalToDistanceLeft, StepDurationRemainingBounded and StepDurationDecreasesAsDistanceGrows |
| `ProgressProperties.StepFractionTraveledBounded` | MapboxNavigation/RouteProgress.swift:187-189 | for a step with a positive distance, the step fraction times the step distance is the distance travelled; it lies in [0, 1] while the distance travelled is within the step |
| `ProgressProperties.StepDurationAtEnds` | MapboxNavigation/RouteProgress.swift:191-193 | for a step with a positive distance: with nothing travelled, its whole expected time is left; travelled to its end, none is |
| `ProgressProperties.StepDurationProportionalToDistanceLeft` | MapboxNavigation/RouteProgress.swift:183-193 | for a step with a positive distance, the time left on it, times its distance, is the distance left times its expected time: time left is in proportion to distance left |
| `ProgressProperties.StepDurationRemainingBounded` | MapboxNavigation/RouteProgress.swift:191-193 | for a step with a positive distance and a non-negative expected time, while the distance travelled is within the step, the time left lies between 0 and the step's expected time |
| `ProgressProperties.StepDurationDecreasesAsDistanceGrows` | MapboxNavigation/RouteProgress.swift:187-193 | for a step with a positive distance and a positive expected time, more distance travelled on it means strictly less time left on it |
| `Progress.RouteLegProgress.constructor` | MapboxNavigation/RouteProgress.swift:160-164 | a new leg progress is at the given in-range step, owns a fresh step progress at 0 travelled with no manoeuvre distance, and its alert level is `none` |
| `Progress.RouteLegProgress.SetStepIndex` | MapboxNavigation/RouteProgress.swift:73-78 | for an in-range index, the cursor moves there and a fresh step progress at 0 travelled replaces the old one; the alert level is unchanged; the leg's distance travelled becomes the sum of the earlier steps' distances, and its time left becomes the sum of the times of this step and all later ones |
| `Progress.RouteLegProgress.CurrentStep` | MapboxNavigation/RouteProgress.swift:108-110 | the current step is a step of the leg and is the step the owned step progress tracks |
| `Progress.RouteLegProgress.DistanceTraveled` | MapboxNavigation/RouteProgress.swift:83-85 | no contract of its own: the earlier steps' distances plus the distance into the current step; its bounds are in LegDistanceTraveledBounded, its end values in LegDistanceAtEnds, its value after a step change in SetStepIndex |
| `Progress.RouteLegProgress.DurationRemaining` | MapboxNavigation/RouteProgress.swift:91-93 | no contract of its own: the later steps' times plus the time left on the current step; its bounds are in LegDurationRemainingBounded, its end values in LegDurationAtEnds, its value after a step change in SetStepIndex |
| `ProgressProperties.LegDistanceTraveledBounded` | MapboxNavigation/RouteProgress.swift:83-85 | on a well-formed leg (non-negative step figures, totals equal to the sums of its steps'), while the distance into the current step lies within that step, the earlier steps' distances plus the distance into the current step lie between 0 and the leg's distance |
| `ProgressProperties.LegDurationRemainingBounded` | MapboxNavigation/RouteProgress.swift:91-93 | on a well-formed leg (non-negative step figures, totals equal to the sums of its steps') whose current step has a positive distance, while the distance into the current step lies within that step, the later steps' times plus the time left on the current step lie between 0 and the leg's expected time |
| `Progress.RouteLegProgress.FractionTraveled` | MapboxNavigation/RouteProgress.swift:98-100 | the fraction times the leg distance is the leg's distance travelled |
| `ProgressProperties.LegFractionTraveledBounded` | MapboxNavigation/RouteProgress.swift:98-100 | on a well-formed leg (non-negative step figures, totals equal to the sums of its steps') of positive length, while the distance into the current step lies within that step, the leg fraction lies in [0, 1] |
| `ProgressProperties.LegDurationDecreasesAsDistanceGrows` | MapboxNavigation/RouteProgress.swift:83-93 | on the same leg and step, with a positive distance and a positive expected time on the current step, more distance along the step means more distance along the leg and strictly less time left on it |
| `ProgressProperties.LegDistanceAtEnds` | MapboxNavigation/RouteProgress.swift:83-85 | at step 0 with nothing travelled, the leg's distance travelled is 0; at the end of the last step of a well-formed leg, it is the leg's distance |
| `ProgressProperties.LegDurationAtEnds` | MapboxNavigation/RouteProgress.swift:91-93 | when the current step has a positive distance: at step 0 with nothing travelled, a well-formed leg has its whole expected time left; at the end of its last step, it has none |
| `ProgressProperties.LegStepAdvanceIsContinuous` | MapboxNavigation/RouteProgress.swift:73-93 | finishing step i and moving to step i + 1 leaves the leg's distance travelled unchanged, and, when both steps have a positive distance, also its time left |
| `Progress.RouteLegProgress.UpComingStep` | MapboxNavigation/RouteProgress.swift:117-122 | present exactly when the step at index + 1 exists, and then it is that step |
| `Progress.RouteLegProgress.FollowOnStep` | MapboxNavigation/RouteProgress.swift:124-129 | present exactly when the step at index + 2 exists, and then it is that step |
| `ProgressProperties.UpComingStepBecomesCurrent` | MapboxNavigation/RouteProgress.swift:117-129 | one step on, the old upcoming step is current and the old follow-on step is upcoming |
| `Collections.IndexOf` | MapboxNavigation/RouteProgress.swift:132 | absent exactly when the value does not occur; otherwise the first position holding it |
| `Collections.Sum` | MapboxNavigation/RouteProgress.swift:38 | no contract of its own: the left fold from 0 that `reduce(0, +)` performs, fed by the `.map` functions StepDistances, StepTimes, LegDistances and LegTimes (the source's `map { $0.distance }` and `map { $0.expectedTravelTime }` at lines 38, 45, 84 and 92); SumAppend states how it splits over a concatenation |
| `Collections.SumAppend` | MapboxNavigation/RouteProgress.swift:38 | the sum of a concatenation is the sum of the sums of its parts |
| `Progress.RouteLegProgress.StepBefore` | MapboxNavigation/RouteProgress.swift:131-139 | absent when the step does not occur; otherwise the step before its first occurrence, or absent when that occurrence opens the leg |
| `Progress.RouteLegProgress.StepAfter` | MapboxNavigation/RouteProgress.swift:141-149 | absent when the step does not occur; otherwise the step after its first occurrence, or absent when that occurrence closes the leg |
| `ProgressProperties.StepNeighboursRoundTrip` | MapboxNavigation/RouteProgress.swift:131-149 | on a leg without repeated steps, the step after the step before s is s, and the step before the step after s is s |
| `ProgressProperties.NeighboursOfCurrentStep` | MapboxNavigation/RouteProgress.swift:117-149 | when the current step does not occur earlier, the step after it is the upcoming step and the step before it is the one at index - 1 |
| `Progress.RouteLegProgress.IsCurrentStep` | MapboxNavigation/RouteProgress.swift:154-156 | true exactly when the step's first occurrence in the leg is at the current index |
| `ProgressProperties.CurrentStepIsCurrentIffFirstOccurrence` | MapboxNavigation/RouteProgress.swift:154-156 | the current step counts as current exactly when it does not also occur earlier in the leg |
| `ProgressProperties.IsCurrentStepOnDistinctLeg` | MapboxNavigation/RouteProgress.swift:154-156 | on a leg without repeated steps, a step is current exactly when it equals the step at the cursor |
| `Progress.RouteProgress.constructor` | MapboxNavigation/RouteProgress.swift:64-68 | a new route progress is at the given in-range leg and owns a fresh leg progress at step 0, with 0 travelled and alert level `none` |
| `Progress.RouteProgress.SetLegIndex` | MapboxNavigation/RouteProgress.swift:18-23 | for an in-range index, the cursor moves there and a fresh leg progress replaces the old one (step 0, 0 travelled, no manoeuvre distance, alert `none`); the route's distance travelled becomes the sum of the earlier legs' distances, and its time left becomes the new leg's step times plus the later legs' times; none of it depends on the earlier state |
| `Progress.RouteProgress.CurrentLeg` | MapboxNavigation/RouteProgress.swift:29-31 | the current leg is a leg of the route and is the leg the owned leg progress tracks |
| `Progress.RouteProgress.DistanceTraveled` | MapboxNavigation/RouteProgress.swift:37-39 | no contract of its own: the earlier legs' distances plus the leg's distance travelled; its bounds are in RouteDistanceTraveledBounded, its flattened-route reference in RouteDistanceTraveledMatchesFlatRoute |
| `Progress.RouteProgress.DurationRemaining` | MapboxNavigation/RouteProgress.swift:44-46 | no contract of its own: the later legs' times plus the leg's time left; its bounds are in RouteDurationRemainingBounded, its flattened-route reference in RouteDurationRemainingMatchesFlatRoute |
| `ProgressProperties.RouteDistanceTraveledBounded` | MapboxNavigation/RouteProgress.swift:37-60 | on a well-formed route (well-formed legs, totals equal to the sums of its legs'), while the distance into the current step lies within that step, the distance travelled and the distance remaining both lie between 0 and the route's distance |
| `Progress.RouteProgress.DistanceRemaining` | MapboxNavigation/RouteProgress.swift:58-60 | distance remaining plus distance travelled is exactly the route's distance |
| `Progress.RouteProgress.FractionTraveled` | MapboxNavigation/RouteProgress.swift:51-53 | the fraction times the route distance is the route's distance travelled |
| `ProgressProperties.RouteFractionTraveledBounded` | MapboxNavigation/RouteProgress.swift:51-53 | on a well-formed route (well-formed legs, totals equal to the sums of its legs') of positive length, while the distance into the current step lies within that step, the route fraction lies in [0, 1] |
| `ProgressProperties.RouteDurationRemainingBounded` | MapboxNavigation/RouteProgress.swift:44-46 | on a well-formed route (well-formed legs, totals equal to the sums of its legs') whose current step has a positive distance, while the distance into the current step lies within that step, the time left lies between 0 and the route's expected time |
| `ProgressProperties.RouteDurationDecreasesAsDistanceGrows` | MapboxNavigation/RouteProgress.swift:37-46 | on the same leg and step, with a positive distance and a positive expected time on the current step, more distance along the step means more distance along the route and strictly less time left on it |
| `ProgressProperties.RouteLegAdvanceKeepsDistance` | MapboxNavigation/RouteProgress.swift:18-39 | when leg k is well formed (non-negative step figures, totals equal to the sums of its steps'), finishing its last step and moving to the start of leg k + 1 leaves the route's distance travelled unchanged |
| `ProgressProperties.RouteLegAdvanceKeepsDuration` | MapboxNavigation/RouteProgress.swift:18-46 | when leg k + 1 is well formed (non-negative step figures, totals equal to the sums of its steps') and both current steps have a positive distance, finishing the last step of leg k and moving to the start of leg k + 1 leaves the route's time left unchanged |
| `ProgressProperties.RouteDistanceTraveledMatchesFlatRoute` | MapboxNavigation/RouteProgress.swift:37-39 | when every leg is well formed (non-negative step figures, totals equal to the sums of its steps'), the route's distance travelled equals the distances of all steps before the current one, in route order, plus the distance into the current step |
| `ProgressProperties.RouteDurationRemainingMatchesFlatRoute` | MapboxNavigation/RouteProgress.swift:44-46 | when every leg is well formed (non-negative step figures, totals equal to the sums of its steps') and the current step has a positive distance, the route's time left equals the times of all steps after the current one, in route order, plus the time left on the current step |
| `Alerts.RawValue` | MapboxNavigation/RouteProgress.swift:4-11 | every alert level has a raw value in 0..5 |
| `Alerts.FromRawValue` | MapboxNavigation/RouteProgress.swift:4-11 | a raw value names an alert level exactly when it is in 0..5 |
| `Alerts.RawValueRoundTrip` | MapboxNavigation/RouteProgress.swift:4-11 | each level converts back from its own raw value |
| `Alerts.FromRawValueRoundTrip` | MapboxNavigation/RouteProgress.swift:4-11 | each raw value that names a level is that level's raw value |

## Left out

- Floating point: distances and times are exact `real`s, so rounding, NaN and infinity are not modelled.
- Division by zero: the fraction and duration functions require a positive step, leg or route distance. The source divides anyway and yields NaN or infinity.
- Progress.RouteStepProgress.FractionTraveled, Progress.RouteStepProgress.DurationRemaining: these carry no `ensures` of their own. Their bodies are the source's division and scaling. What they promise is stated by the `Step…` lemmas in the table. The non-linear arithmetic those lemmas rely on is in `shares.dfy`.
- Progress.RouteLegProgress.DistanceTraveled, Progress.RouteLegProgress.DurationRemaining, Progress.RouteProgress.DistanceTraveled, Progress.RouteProgress.DurationRemaining: these carry no `ensures` of their own. Their bodies are the prefix and suffix sums of the source, and what they promise is stated by the lemmas listed for them in the table.
- Progress.RouteLegProgress.DurationRemaining and Progress.RouteProgress.DurationRemaining require the current step to have a positive distance. This is because the step's duration divides by that distance.
- Progress.RouteProgress.SetLegIndex and Progress.RouteProgress.constructor also require the selected leg to have at least one step. The source builds the new leg progress from `steps[0]`, which traps on an empty leg.
- Index violations are preconditions, not error results. The source asserts the range and then indexes the array, so an out-of-range index always stops the program.
- The directions library's `Route`, `RouteLeg` and `RouteStep` are reduced to their distance, expected travel time and children. A step also keeps an instruction string, so that distinct steps can share figures. Nothing else about them is modelled.
- The location tracker's updates to `distanceTraveled` and `userDistanceToManeuverLocation`, and the alert logic's updates to `alertUserLevel`, are plain field assignments. They are not wrapped in methods, as in the source. How those values are decided is not part of this model.
- Swift's implicitly unwrapped `currentLegProgress!`: the child is always present in the model, so the state in which it is missing is not represented.
- The owned children `currentLegProgress` and `currentStepProgress` are public, settable properties in the source, and its getters accept any child. The model assumes the children are replaced only by the index setters: every derived value requires `Valid()`, which demands that the child tracks the leg or step at the cursor.
- Progress.RouteProgress.constructor, Progress.RouteLegProgress.constructor: the source's default arguments `legIndex: Int = 0` and `stepIndex: Int = 0` are not modelled, so callers always pass the index.
- `RouteStep` equality: the source compares steps with the directions library's `==`, which `RouteProgress.swift` does not define and which may be object identity. The model compares steps as Dafny values over all three fields. `CurrentStepIsCurrentIffFirstOccurrence` and the other duplicate-step lemmas describe that value equality.
- Subclassing of the `open` classes.
- The unimplemented choice of first or last step when the leg index goes down: the source always starts the new leg at step 0, and so does the model.
- Thread safety: the tracker assumes a single sequential caller, and so does the model.
