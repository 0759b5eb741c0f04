/** The directions response the `/tick` handler reads: routes, each with legs,
    each with steps, each with a list of traffic speed tags. The TypeScript
    interface declares every field present, but the JSON is not checked at run
    time, so each field the handler reads is an `Option`: `None` is a missing
    field, which the handler reads as `undefined`. */
module Directions {
  import opened Completions

  datatype Step = Step(trafficSpeedEntry: Option<seq<string>>)
  datatype Leg = Leg(steps: Option<seq<Step>>)
  datatype Route = Route(legs: Option<seq<Leg>>)
  datatype Response = Response(routes: Option<seq<Route>>)

  /** The leg's `steps` field and every step's `traffic_speed_entry` field
      are present, as the TypeScript interface declares. */
  ghost predicate WellShapedLeg(leg: Leg) {
    && leg.steps.Some?
    && forall k :: 0 <= k < |leg.steps.value| ==> leg.steps.value[k].trafficSpeedEntry.Some?
  }

  /** The response has a first route, and that route has a first leg. */
  ghost predicate HasFirstLeg(r: Response) {
    && r.routes.Some? && |r.routes.value| > 0
    && r.routes.value[0].legs.Some? && |r.routes.value[0].legs.value| > 0
  }

  /** `routes[0].legs[0]`, where it exists. */
  ghost function FirstLeg(r: Response): Leg
    requires HasFirstLeg(r)
  {
    r.routes.value[0].legs.value[0]
  }
}
