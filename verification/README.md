# Traffic robot: the `/tick` handler

The traffic robot is an Express service. A host platform calls its `/tick`
endpoint with a JSON body `{ "return_url": ... }`. The handler fetches a
directions response, decides whether "Highway 5" is congested, POSTs
`{ message }` to `return_url`, and answers the tick with `200 "Done!"`. Any
error thrown on the way is caught, and the answer is then `500 "Robot broke 😢"`.

This project models that handler as pure Dafny functions, in four modules:

- `Completions`: `Option` (a JSON field that may be missing) and `Completion` (a
  JavaScript evaluation that returns normally or throws a `TypeError`).
- `Directions`: the nested response shape `routes → legs → steps →
  traffic_speed_entry`. Each field the handler reads may be absent. The
  interface declares them all present, but the JSON is never checked at run
  time, and the handler's behaviour on a missing field is part of what it does.
- `Classifier`: `FirstLegSteps` reads `routes[0].legs[0].steps`.
  `AnyStepCongested` is `Array.prototype.some` with the callback
  `step => step.traffic_speed_entry.includes('congestion')`, including its
  left-to-right short circuit. `Classify` combines the two, and `MessageFor`
  picks one of the two fixed messages.
- `TickHandler`: `HandleTick` is the try/catch of the handler. The directions
  GET and the POST are parameters that either resolve or reject. The function
  returns the reply together with the list of outbound requests the handler
  issued. A POST counts as issued whether or not it resolved.

The code reads only the first leg of the first route. Indexing an empty
`routes` or `legs` array gives `undefined`, and the next property read throws,
so a response with no route or no leg is an error (500), not "clear". A first
leg with an empty `steps` array is clear.

Congestion on any route or leg other than the first is ignored
(`CongestionOnSecondRouteIgnored`). The handler makes at most one POST per tick,
to `return_url` only. It does not check `return_url` before posting, and it does
not retry a failed request.

## Model

| member | source | states |
|---|---|---|
| Classifier.FirstLegSteps | src/server.ts:79-80 | `routes[0].legs[0].steps` is read normally exactly when the first route, its first leg and that leg's `steps` field all exist, and then it is that leg's step list; otherwise the read throws |
| Classifier.StepHasCongestion | src/server.ts:80 | the `some` callback throws exactly when the step has no `traffic_speed_entry`, and answers true exactly when that list holds an entry equal to "congestion" |
| Classifier.Classify | src/server.ts:79-80 | `hasCongestion` is true iff the scan of the first leg's steps meets a tagged step before any step without the field; false iff every step there has the field and none is tagged; without a first route and first leg the computation throws |
| Classifier.AnyStepCongested | src/server.ts:80 | `some` answers true only if some step's callback answered true |
| Classifier.AnyStepCongestedSpec | src/server.ts:80 | `some` over the steps is true iff the scan reaches a step tagged "congestion" before any step without `traffic_speed_entry`; false iff every step has the field and none carries the tag; throws iff it meets a step without the field first |
| Classifier.ClassifyWellShaped | src/server.ts:11-19 | when the first route has a first leg shaped as the interface declares (later routes and legs may be malformed), `hasCongestion` is true iff some step of the first leg of the first route has an entry exactly equal to "congestion" |
| Classifier.ClassifyThrowsWithoutFirstLeg | src/server.ts:79-80 | no routes, no legs on the first route, or either field missing: the classification throws a TypeError rather than answering clear |
| Classifier.ClassifyEmptyStepsClear | src/server.ts:80-87 | a first leg with an empty step list classifies as not congested, and the message is the clear one |
| Classifier.ClassifyIgnoresOtherRoutes | src/server.ts:79-80 | replacing any route after the first never changes the classification |
| Classifier.ClassifyIgnoresOtherLegs | src/server.ts:80 | replacing any leg after the first of the first route never changes the classification |
| Classifier.CongestionOnSecondRouteIgnored | src/server.ts:79-80 | a response clear on route 0 and congested on route 1 classifies as clear |
| Classifier.ScanStopsAtFirstHit | src/server.ts:80 | once the first step is tagged, the result is congested whatever the later steps hold, even a step whose field is missing |
| Classifier.MessageFor | src/server.ts:82-87 | the message is the blocked text exactly when congested and the clear text exactly when not |
| Classifier.MessageDeterminesClassification | src/server.ts:82-87 | the two messages differ, so the message depends on, and reveals, nothing but `hasCongestion` |
| TickHandler.Posts | src/server.ts:89 | the POSTs to `return_url` among the issued requests, resolved or not: each one as many times as it was issued, and no other request |
| TickHandler.HandleTick | src/server.ts:72-100 | the reply is 200 "Done!" or 500 "Robot broke 😢"; it is 200 iff the body was read, the fetch resolved, classification did not throw and the POST resolved; a tick that throws before the POST posts nothing; otherwise exactly one POST is attempted, carrying the classification's message to `return_url` |
| TickHandler.FetchFailurePostsNothing | src/server.ts:76-78 | a rejected directions fetch makes no POST and answers 500 |
| TickHandler.MissingRouteOrLegPostsNothing | src/server.ts:79-80 | a response with no route, or whose first route has no leg, makes no POST and answers 500 |
| TickHandler.DoneMeansOnePost | src/server.ts:89-92 | "Done!" implies the fetch and the POST resolved, classification did not throw, and exactly one POST of its message to `return_url` was made |
| TickHandler.PostFailureBreaks | src/server.ts:89 | a rejected POST always yields 500 "Robot broke 😢" |
| TickHandler.RequestOrder | src/server.ts:76-89 | a tick issues nothing, the directions GET alone, or the GET followed by one POST to `return_url`: never two GETs, never two POSTs, never the POST first |
| TickHandler.CongestedTickSendsBlocked | src/server.ts:83-92 | a congested response and a resolved POST: the handler issues the GET, then one POST of the blocked message to `return_url`, and answers "Done!" |
| TickHandler.EmptyLegTickSendsClear | src/server.ts:80-92 | a first leg with no steps and a resolved POST: the clear message is posted and the tick is done |
| TickHandler.TickDependsOnlyOnFirstLeg | src/server.ts:79-80 | two responses with the same first leg of the first route produce the same tick |

## Left out

- The Express app setup, the `express.json()` middleware and `app.listen` (src/server.ts:1-9, 102-104): process plumbing.
- `dotenv` loading and the module-load check for the Maps API key (src/server.ts:5, 21-25): configuration read once at startup, not per-tick logic.
- TickHandler.Posts: its contract keeps the contents and the count of each POST but does not state their order. A tick issues at most one POST (`RequestOrder`), so their order never matters here.
- The `/traffic-robot.json` manifest endpoint (src/server.ts:28-69): a static JSON literal with no behaviour.
- The axios transport: the request URL and API key, and HTTP status handling. The directions GET and the POST are abstract outcomes that resolve or reject. Neither call sets a timeout, so in the running service a request that never settles leaves the tick with no reply at all. `HandleTick`'s "200 or 500" holds only because every modelled outcome settles. Whether a POST to an absent `return_url` resolves is part of that abstract outcome.
- `console.error` logging in the catch block: output only, with no effect on the reply.
- JSON values of the wrong type, such as a string where an array is expected, or `null` array elements. Only present and absent fields are modelled.
- Concurrent ticks: the handler shares no mutable state, so there is nothing to model.
- Determinism of classification holds by construction, because every function here is pure. There is no separate lemma for it.
