/** The `/tick` handler: read `return_url` from the request body, fetch the
    directions response, classify it, POST `{ message }` to `return_url`, and
    answer 200 "Done!"; any throw inside the `try` block is caught and answered
    with 500 "Robot broke 😢". The outcomes of the two outbound requests are
    parameters: the model does not know how the network behaves, only what the
    handler does with each outcome. */
module TickHandler {
  import opened Completions
  import opened Directions
  import opened Classifier

  /** The parsed JSON request body; `returnUrl` is `None` when the body has no
      `return_url` field, in which case `undefined` is passed on to the POST. */
  datatype TickBody = TickBody(returnUrl: Option<string>)

  /** How the directions GET ends. */
  datatype FetchOutcome = Fetched(data: Response) | FetchRejected

  /** How the POST to `return_url` ends. */
  datatype PostOutcome = PostResolved | PostRejected

  /** An outbound request the handler issues. */
  datatype Request =
    | DirectionsGet
    | MessagePost(url: Option<string>, message: string)

  datatype Reply = Reply(status: int, text: string)

  /** The reply sent to the tick caller and the outbound requests issued, in order. */
  datatype TickResult = TickResult(reply: Reply, requests: seq<Request>)

  const DoneReply: Reply := Reply(200, "Done!")
  const BrokeReply: Reply := Reply(500, "Robot broke 😢")

  /** The POSTs to `return_url` among `reqs`: every attempt, whether or not
      it resolved, each as many times as it was issued, and nothing else. */
  function Posts(reqs: seq<Request>): (d: seq<Request>)
    ensures |d| <= |reqs|
    ensures forall x :: multiset(d)[x] == if x.MessagePost? then multiset(reqs)[x] else 0
  {
    if |reqs| == 0 then []
    else
      assert reqs == [reqs[0]] + reqs[1..];
      var rest := Posts(reqs[1..]);
      if reqs[0].MessagePost? then [reqs[0]] + rest else rest
  }

  /** The classification of the fetched response, when the body could be
      destructured and the fetch resolved; `None` stands for a throw. */
  function Evaluated(body: Option<TickBody>, fetch: FetchOutcome): (e: Option<bool>) {
    if body.Some? && fetch.Fetched? && Classify(fetch.data).Normal?
    then Some(Classify(fetch.data).value)
    else None
  }

  /** One tick. `body` is `None` when the request has no parsed body, so that
      destructuring `return_url` out of it throws before anything is sent.
      Every throw lands in the one catch block, which answers 500. */
  function HandleTick(body: Option<TickBody>, fetch: FetchOutcome, post: PostOutcome): (t: TickResult)
    ensures t.reply == DoneReply || t.reply == BrokeReply
    ensures t.reply == DoneReply <==> Evaluated(body, fetch).Some? && post == PostResolved
    ensures Evaluated(body, fetch).None? ==> Posts(t.requests) == []
    ensures Evaluated(body, fetch).Some? ==>
              Posts(t.requests) == [MessagePost(body.value.returnUrl, MessageFor(Evaluated(body, fetch).value))]
  {
    match body
    case None => TickResult(BrokeReply, [])
    case Some(b) =>
      match fetch
      case FetchRejected => TickResult(BrokeReply, [DirectionsGet])
      case Fetched(data) =>
        match Classify(data)
        case Abrupt(_) => TickResult(BrokeReply, [DirectionsGet])
        case Normal(hasCongestion) =>
          var issued := [DirectionsGet, MessagePost(b.returnUrl, MessageFor(hasCongestion))];
          match post
          case PostRejected => TickResult(BrokeReply, issued)
          case PostResolved => TickResult(DoneReply, issued)
  }

  /** A failed directions fetch sends nothing to `return_url` and answers 500. */
  lemma FetchFailurePostsNothing(body: Option<TickBody>, post: PostOutcome)
    ensures var t := HandleTick(body, FetchRejected, post);
            Posts(t.requests) == [] && t.reply == BrokeReply
  {
  }

  /** A response with no routes, or whose first route has no legs, sends
      nothing to `return_url` and answers 500. */
  lemma MissingRouteOrLegPostsNothing(body: Option<TickBody>, data: Response, post: PostOutcome)
    requires || data.routes.None?
             || |data.routes.value| == 0
             || data.routes.value[0].legs.None?
             || |data.routes.value[0].legs.value| == 0
    ensures var t := HandleTick(body, Fetched(data), post);
            Posts(t.requests) == [] && t.reply == BrokeReply
  {
    ClassifyThrowsWithoutFirstLeg(data);
  }

  /** "Done!" means the body was read, the fetch resolved, classification did
      not throw, and exactly one POST of the classification's message was made,
      to `return_url`, and it resolved. */
  lemma DoneMeansOnePost(body: Option<TickBody>, fetch: FetchOutcome, post: PostOutcome)
    requires HandleTick(body, fetch, post).reply == DoneReply
    ensures body.Some? && fetch.Fetched? && post == PostResolved
    ensures Classify(fetch.data).Normal?
    ensures Posts(HandleTick(body, fetch, post).requests)
            == [MessagePost(body.value.returnUrl, MessageFor(Classify(fetch.data).value))]
  {
  }

  /** A rejected POST always yields the 500, whatever was classified. */
  lemma PostFailureBreaks(body: Option<TickBody>, fetch: FetchOutcome)
    ensures HandleTick(body, fetch, PostRejected).reply == BrokeReply
  {
  }

  /** A tick issues nothing, or the directions GET alone, or the GET followed
      by a single POST to `return_url`: never a second GET or a second POST,
      and never a POST before the GET. */
  lemma RequestOrder(body: Option<TickBody>, fetch: FetchOutcome, post: PostOutcome)
    ensures var reqs := HandleTick(body, fetch, post).requests;
            || reqs == []
            || reqs == [DirectionsGet]
            || (&& body.Some? && |reqs| == 2 && reqs[0] == DirectionsGet
                && reqs[1] == MessagePost(body.value.returnUrl, reqs[1].message))
    ensures |Posts(HandleTick(body, fetch, post).requests)| <= 1
  {
  }

  /** A congested response and a resolved POST: one POST of the blocked
      message to `return_url`, then "Done!". */
  lemma CongestedTickSendsBlocked(url: string, data: Response)
    requires Classify(data) == Normal(true)
    ensures var t := HandleTick(Some(TickBody(Some(url))), Fetched(data), PostResolved);
            && t.reply == DoneReply
            && t.requests == [DirectionsGet, MessagePost(Some(url), BlockedMessage)]
  {
  }

  /** A first leg without steps and a resolved POST: the clear message is
      posted and the tick is done. */
  lemma EmptyLegTickSendsClear(url: string, data: Response)
    requires FirstLegSteps(data) == Normal([])
    ensures var t := HandleTick(Some(TickBody(Some(url))), Fetched(data), PostResolved);
            && t.reply == DoneReply
            && Posts(t.requests) == [MessagePost(Some(url), ClearMessage)]
  {
    ClassifyEmptyStepsClear(data);
  }

  /** The message posted is the one for the response's first leg of its
      first route: two responses that agree there make the same tick. */
  lemma TickDependsOnlyOnFirstLeg(body: Option<TickBody>, a: Response, b: Response, post: PostOutcome)
    requires FirstLegSteps(a) == FirstLegSteps(b)
    ensures HandleTick(body, Fetched(a), post) == HandleTick(body, Fetched(b), post)
  {
  }
}
