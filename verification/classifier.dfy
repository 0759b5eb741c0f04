/** Congestion classification and message selection of the `/tick` handler.
    The handler reads `routes[0].legs[0].steps` and asks whether some step's
    `traffic_speed_entry` includes the tag "congestion"; a read through a
    missing route, leg or field throws a TypeError. Only the first leg of the
    first route is ever read. */
module Classifier {
  import opened Completions
  import opened Directions

  const CongestionTag: string := "congestion"
  const BlockedMessage: string := "🚨 Highway 5 is blocked! Use Route 66 instead!"
  const ClearMessage: string := "✅ Highway 5 is clear!"

  /** `response.data.routes[0].legs[0].steps`: each read of a property of
      `undefined` throws, and indexing an empty array gives `undefined`. */
  function FirstLegSteps(resp: Response): (r: Completion<seq<Step>>)
    ensures r.Normal? <==> HasFirstLeg(resp) && FirstLeg(resp).steps.Some?
    ensures r.Normal? ==> r.value == FirstLeg(resp).steps.value
  {
    match resp.routes
    case None => Abrupt(TypeError)
    case Some(routes) =>
      if |routes| == 0 then Abrupt(TypeError)
      else match routes[0].legs
        case None => Abrupt(TypeError)
        case Some(legs) =>
          if |legs| == 0 then Abrupt(TypeError)
          else match legs[0].steps
            case None => Abrupt(TypeError)
            case Some(steps) => Normal(steps)
  }

  /** The callback `step => step.traffic_speed_entry.includes('congestion')`:
      `includes` compares strings exactly, so the match is case-sensitive. */
  function StepHasCongestion(step: Step): (r: Completion<bool>)
    ensures r.Abrupt? <==> !Readable(step)
    ensures r == Normal(true) <==> Tagged(step)
  {
    match step.trafficSpeedEntry
    case None => Abrupt(TypeError)
    case Some(entries) => Normal(CongestionTag in entries)
  }

  /** `steps.some(callback)`: visits the steps in order, stops at the first
      true answer, and lets a throw from the callback escape. */
  function AnyStepCongested(steps: seq<Step>): (r: Completion<bool>)
    ensures r == Normal(true) ==> exists k :: 0 <= k < |steps| && StepHasCongestion(steps[k]) == Normal(true)
  {
    if |steps| == 0 then Normal(false)
    else match StepHasCongestion(steps[0])
      case Abrupt(e) => Abrupt(e)
      case Normal(true) => Normal(true)
      case Normal(false) => AnyStepCongested(steps[1..])
  }

  /** `hasCongestion`, or the error that computing it throws: congested when
      the scan of the first leg's steps meets a tagged step before any step
      without the field, clear when every step has the field and none is
      tagged, and a throw otherwise. */
  function Classify(resp: Response): (r: Completion<bool>)
    ensures r == Normal(true) <==>
              FirstLegSteps(resp).Normal? && exists i :: HitAt(FirstLegSteps(resp).value, i)
    ensures r == Normal(false) <==>
              FirstLegSteps(resp).Normal? && CleanPrefix(FirstLegSteps(resp).value, |FirstLegSteps(resp).value|)
    ensures !HasFirstLeg(resp) ==> r.Abrupt?
  {
    match FirstLegSteps(resp)
    case Abrupt(e) => Abrupt(e)
    case Normal(steps) =>
      AnyStepCongestedSpec(steps);
      AnyStepCongested(steps)
  }

  /** The message the handler sends for a classification. */
  function MessageFor(hasCongestion: bool): (m: string)
    ensures m == BlockedMessage <==> hasCongestion
    ensures m == ClearMessage <==> !hasCongestion
  {
    if hasCongestion then BlockedMessage else ClearMessage
  }

  // ---------------------------------------------------------------------------
  // Reference definitions: what the scan of `some` observes, stated per index.

  ghost predicate Readable(step: Step) {
    step.trafficSpeedEntry.Some?
  }

  ghost predicate Tagged(step: Step) {
    step.trafficSpeedEntry.Some? && CongestionTag in step.trafficSpeedEntry.value
  }

  /** The first `n` steps can be read and none of them carries the tag. */
  ghost predicate CleanPrefix(steps: seq<Step>, n: nat)
    requires n <= |steps|
  {
    forall k :: 0 <= k < n ==> Readable(steps[k]) && !Tagged(steps[k])
  }

  /** The scan reaches step `i` and finds the tag there. */
  ghost predicate HitAt(steps: seq<Step>, i: int) {
    0 <= i < |steps| && CleanPrefix(steps, i) && Tagged(steps[i])
  }

  /** The scan reaches step `i` and throws there. */
  ghost predicate BreakAt(steps: seq<Step>, i: int) {
    0 <= i < |steps| && CleanPrefix(steps, i) && !Readable(steps[i])
  }

  lemma CleanPrefixShift(steps: seq<Step>, n: nat)
    requires 0 < |steps| && n < |steps|
    requires Readable(steps[0]) && !Tagged(steps[0])
    ensures CleanPrefix(steps, n + 1) <==> CleanPrefix(steps[1..], n)
  {
  }

  /** `some` answers true exactly when the scan finds the tag before any
      unreadable step, answers false exactly when every step is readable and
      untagged, and throws exactly when it meets an unreadable step first. */
  lemma {:induction false} AnyStepCongestedSpec(steps: seq<Step>)
    ensures AnyStepCongested(steps) == Normal(true) <==> exists i :: HitAt(steps, i)
    ensures AnyStepCongested(steps) == Normal(false) <==> CleanPrefix(steps, |steps|)
    ensures AnyStepCongested(steps) == Abrupt(TypeError) <==> exists i :: BreakAt(steps, i)
    decreases |steps|
  {
    if |steps| == 0 {
      assert forall i :: !HitAt(steps, i) && !BreakAt(steps, i);
    } else if !Readable(steps[0]) {
      assert BreakAt(steps, 0);
      assert !CleanPrefix(steps, |steps|);
      assert forall i :: !HitAt(steps, i);
    } else if Tagged(steps[0]) {
      assert HitAt(steps, 0);
      assert !CleanPrefix(steps, |steps|);
      assert forall i :: !BreakAt(steps, i);
    } else {
      var rest := steps[1..];
      AnyStepCongestedSpec(rest);
      assert AnyStepCongested(steps) == AnyStepCongested(rest);
      CleanPrefixShift(steps, |rest|);
      assert (exists i :: HitAt(steps, i)) <==> (exists i :: HitAt(rest, i)) by {
        forall i | HitAt(steps, i) ensures HitAt(rest, i - 1) {
          assert i > 0;
          CleanPrefixShift(steps, i - 1);
          assert steps[i] == rest[i - 1];
        }
        forall i | HitAt(rest, i) ensures HitAt(steps, i + 1) {
          CleanPrefixShift(steps, i);
          assert steps[i + 1] == rest[i];
        }
      }
      assert (exists i :: BreakAt(steps, i)) <==> (exists i :: BreakAt(rest, i)) by {
        forall i | BreakAt(steps, i) ensures BreakAt(rest, i - 1) {
          assert i > 0;
          CleanPrefixShift(steps, i - 1);
          assert steps[i] == rest[i - 1];
        }
        forall i | BreakAt(rest, i) ensures BreakAt(steps, i + 1) {
          CleanPrefixShift(steps, i);
          assert steps[i + 1] == rest[i];
        }
      }
    }
  }

  /** When the first route has a first leg shaped as the interface declares
      (its `steps` and every step's `traffic_speed_entry` present), the
      classification is "some step of that leg has a tag exactly equal to
      congestion". Other routes and legs may be malformed. */
  lemma ClassifyWellShaped(resp: Response)
    requires HasFirstLeg(resp) && WellShapedLeg(FirstLeg(resp))
    ensures var steps := FirstLeg(resp).steps.value;
            Classify(resp) == Normal(exists k :: 0 <= k < |steps| && CongestionTag in steps[k].trafficSpeedEntry.value)
  {
    var steps := FirstLeg(resp).steps.value;
    assert Classify(resp) == AnyStepCongested(steps);
    AnyStepCongestedSpec(steps);
    assert forall i :: !BreakAt(steps, i);
    if exists k :: 0 <= k < |steps| && CongestionTag in steps[k].trafficSpeedEntry.value {
      var k :| 0 <= k < |steps| && CongestionTag in steps[k].trafficSpeedEntry.value;
      assert Tagged(steps[k]);
      assert !CleanPrefix(steps, |steps|);
      var r := AnyStepCongested(steps);
      assert r.Normal? && r != Normal(false);
      assert r.value;
    } else {
      assert CleanPrefix(steps, |steps|);
    }
  }

  /** With no routes, or a first route with no legs (or with those fields
      missing), reading `legs` or `steps` of `undefined` throws. */
  lemma ClassifyThrowsWithoutFirstLeg(resp: Response)
    requires || resp.routes.None?
             || |resp.routes.value| == 0
             || resp.routes.value[0].legs.None?
             || |resp.routes.value[0].legs.value| == 0
    ensures Classify(resp) == Abrupt(TypeError)
  {
  }

  /** A first leg with no steps is clear: `some` over an empty array is false. */
  lemma ClassifyEmptyStepsClear(resp: Response)
    requires FirstLegSteps(resp) == Normal([])
    ensures Classify(resp) == Normal(false)
    ensures MessageFor(Classify(resp).value) == ClearMessage
  {
  }

  /** Replacing any route but the first never changes the classification. */
  lemma ClassifyIgnoresOtherRoutes(resp: Response, i: nat, route: Route)
    requires resp.routes.Some? && 0 < i < |resp.routes.value|
    ensures Classify(Response(Some(resp.routes.value[i := route]))) == Classify(resp)
  {
  }

  /** Replacing any leg but the first of the first route never changes the
      classification. */
  lemma ClassifyIgnoresOtherLegs(resp: Response, j: nat, leg: Leg)
    requires resp.routes.Some? && |resp.routes.value| > 0
    requires resp.routes.value[0].legs.Some? && 0 < j < |resp.routes.value[0].legs.value|
    ensures var routes := resp.routes.value;
            var legs := routes[0].legs.value;
            Classify(Response(Some(routes[0 := Route(Some(legs[j := leg]))]))) == Classify(resp)
  {
  }

  /** A congestion tag on the second route is not seen: this response, clear
      on its first route and congested on its second, classifies as clear. */
  lemma CongestionOnSecondRouteIgnored()
    ensures var clear := Route(Some([Leg(Some([Step(Some(["normal"]))]))]));
            var jammed := Route(Some([Leg(Some([Step(Some([CongestionTag]))]))]));
            Classify(Response(Some([clear, jammed]))) == Normal(false)
  {
    var clear := Route(Some([Leg(Some([Step(Some(["normal"]))]))]));
    var steps := [Step(Some(["normal"]))];
    assert CongestionTag !in ["normal"];
    assert AnyStepCongested(steps[1..]) == Normal(false);
  }

  /** The scan stops at the first tagged step: a later step with no
      `traffic_speed_entry` field is never read. */
  lemma ScanStopsAtFirstHit(resp: Response, steps: seq<Step>)
    requires FirstLegSteps(resp) == Normal(steps)
    requires |steps| > 0 && Tagged(steps[0])
    ensures Classify(resp) == Normal(true)
  {
  }

  /** The two messages differ, so the message tells the classification back. */
  lemma MessageDeterminesClassification(a: bool, b: bool)
    ensures MessageFor(a) == MessageFor(b) <==> a == b
  {
  }
}
