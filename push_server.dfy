/**
 * The push server: an in-memory table from a naively derived browser id to
 * the push subscription that browser registered, and the three endpoints
 * `/register`, `/notify` and `/vapidPublicKey`.
 *
 * Subscriptions (`S`) are stored verbatim and never inspected. The delivery
 * performed by the web-push library is a function `deliver` from the
 * subscription found (or `None` for `undefined`) and the payload to an
 * outcome `DeliveryOutcome<E>`, `E` being the library's error.
 */
module PushServer {
  import opened Wrappers

  /** What an incoming request contributes: its socket's remote address and its User-Agent header. */
  datatype Request = Request(remoteAddress: Option<string>, userAgent: Option<string>)

  /** The text of a response body, or the error object `res.send` serialises. */
  datatype Body<E> = Text(text: string) | Error(error: E)

  datatype Response<E> = Response(status: int, body: Body<E>)

  /** `res.sendStatus(200)`: status 200 with its reason phrase as the body. */
  function Ok<E>(): Response<E> {
    Response(200, Text("OK"))
  }

  /** What `webPush.sendNotification` settles to. */
  datatype DeliveryOutcome<E> = Delivered | Rejected(error: E)

  /** The arguments of the one `webPush.sendNotification` call a notify makes. */
  datatype DeliveryAttempt<S> = DeliveryAttempt(subscription: Option<S>, payload: string)

  /** The fixed message every notification carries. */
  const Payload := "hello"

  /**
   * JavaScript's string conversion of a possibly undefined string: a string
   * converts to itself, `undefined` to the text "undefined".
   */
  function JsString(o: Option<string>): (s: string)
    ensures o.Some? ==> s == o.value
    ensures o.None? ==> s == "undefined"
  {
    match o
    case Some(s) => s
    case None => "undefined"
  }

  /**
   * `browserId`, as the property key it is used as. When at least one part
   * is a string, `+` concatenates: the remote address immediately followed
   * by the User-Agent, with no separator, an absent part reading
   * "undefined". When both are absent, `undefined + undefined` is the number
   * NaN, whose property key is "NaN".
   */
  function BrowserId(req: Request): (id: string)
    ensures req.remoteAddress.None? && req.userAgent.None? ==> id == "NaN"
    ensures req.remoteAddress.Some? || req.userAgent.Some? ==>
              var a, u := JsString(req.remoteAddress), JsString(req.userAgent);
              |id| == |a| + |u| && id[..|a|] == a && id[|a|..] == u
  {
    if req.remoteAddress.None? && req.userAgent.None? then "NaN"
    else JsString(req.remoteAddress) + JsString(req.userAgent)
  }

  /** Two different browsers can share an id: the split point between address and agent is lost. */
  lemma BrowserIdIsAmbiguous()
    ensures var r1, r2 := Request(Some("10.0.0.1"), Some("1Agent")), Request(Some("10.0.0.11"), Some("Agent"));
            r1 != r2 && BrowserId(r1) == BrowserId(r2)
  {
    assert BrowserId(Request(Some("10.0.0.1"), Some("1Agent"))) == "10.0.0.11Agent";
    assert BrowserId(Request(Some("10.0.0.11"), Some("Agent"))) == "10.0.0.11Agent";
  }

  /**
   * With a remote address present, a request without a User-Agent header gets
   * the id of one whose agent is literally "undefined".
   */
  lemma MissingAgentIsUndefined(address: string)
    ensures BrowserId(Request(Some(address), None)) == BrowserId(Request(Some(address), Some("undefined")))
    ensures BrowserId(Request(Some(address), None)) == address + "undefined"
  {
  }

  /**
   * A request with neither address nor User-Agent is keyed "NaN", apart from
   * one without an address whose agent is literally "undefined".
   */
  lemma BothMissingIsNaN()
    ensures BrowserId(Request(None, None)) == "NaN"
    ensures BrowserId(Request(None, Some("undefined"))) == "undefinedundefined"
    ensures BrowserId(Request(None, None)) != BrowserId(Request(None, Some("undefined")))
  {
  }

  class PushServer<S, E> {
    /** The process-wide `subscriptions` object. */
    var subscriptions: map<string, S>
    /** The configured VAPID public key. */
    const vapidPublicKey: string

    /** Start-up: the table is empty. */
    constructor (vapidPublicKey: string)
      ensures this.vapidPublicKey == vapidPublicKey
      ensures subscriptions == map[]
    {
      this.vapidPublicKey := vapidPublicKey;
      subscriptions := map[];
    }

    /** `subscriptions[id]`: the stored subscription, or `undefined` for an id never registered. */
    function Lookup(id: string): (r: Option<S>)
      reads this
      ensures r.Some? <==> id in subscriptions
      ensures r.Some? ==> r.value == subscriptions[id]
    {
      if id in subscriptions then Some(subscriptions[id]) else None
    }

    /** `POST /register`: stores the body's subscription under the caller's id, replacing any earlier one. */
    method Register(req: Request, subscription: S) returns (response: Response<E>)
      modifies this
      ensures subscriptions == old(subscriptions)[BrowserId(req) := subscription]
      ensures Lookup(BrowserId(req)) == Some(subscription)
      ensures forall id :: id != BrowserId(req) ==> Lookup(id) == old(Lookup(id))
      ensures response == Ok()
    {
      subscriptions := subscriptions[BrowserId(req) := subscription];
      response := Ok();
    }

    /**
     * `GET /notify`: looks the caller's id up, without changing the table,
     * and makes exactly one delivery attempt with what it found (possibly
     * `undefined`) and the fixed payload; 200 when delivery succeeds, 500
     * with the library's error when it fails.
     */
    method Notify(req: Request, deliver: (Option<S>, string) -> DeliveryOutcome<E>)
      returns (attempt: DeliveryAttempt<S>, response: Response<E>)
      ensures attempt.subscription == Lookup(BrowserId(req))
      ensures attempt.payload == Payload
      ensures deliver(attempt.subscription, attempt.payload).Delivered? ==> response == Ok()
      ensures deliver(attempt.subscription, attempt.payload).Rejected? ==>
                response == Response(500, Error(deliver(attempt.subscription, attempt.payload).error))
    {
      var subscription := Lookup(BrowserId(req));
      attempt := DeliveryAttempt(subscription, Payload);
      match deliver(subscription, Payload)
      case Delivered =>
        response := Ok();
      case Rejected(error) =>
        response := Response(500, Error(error));
    }

    /** `GET /vapidPublicKey`: the configured public key, as text. */
    method VapidPublicKey() returns (response: Response<E>)
      ensures response == Response(200, Text(vapidPublicKey))
    {
      response := Response(200, Text(vapidPublicKey));
    }
  }

  // -----------------------------------------------------------------------
  // Request sequences against a freshly started server
  // -----------------------------------------------------------------------

  /** A browser that never registered is notified with `undefined`. */
  method NotifyUnregistered<S, E>(key: string, req: Request, deliver: (Option<S>, string) -> DeliveryOutcome<E>)
    returns (attempt: DeliveryAttempt<S>)
    ensures attempt == DeliveryAttempt(None, Payload)
  {
    var server := new PushServer<S, E>(key);
    var response;
    attempt, response := server.Notify(req, deliver);
  }

  /** After registering, a notify from the same browser delivers the registered subscription. */
  method RegisterThenNotify<S, E>(key: string, req: Request, s: S, deliver: (Option<S>, string) -> DeliveryOutcome<E>)
    returns (attempt: DeliveryAttempt<S>, response: Response<E>)
    ensures attempt == DeliveryAttempt(Some(s), Payload)
    ensures response.status == if deliver(Some(s), Payload).Delivered? then 200 else 500
  {
    var server := new PushServer<S, E>(key);
    var _ := server.Register(req, s);
    attempt, response := server.Notify(req, deliver);
  }

  /** Registering twice from one browser: the second subscription is the one used. */
  method LastWriteWins<S, E>(key: string, req: Request, first: S, second: S, deliver: (Option<S>, string) -> DeliveryOutcome<E>)
    returns (attempt: DeliveryAttempt<S>)
    ensures attempt.subscription == Some(second)
  {
    var server := new PushServer<S, E>(key);
    var _ := server.Register(req, first);
    var _ := server.Register(req, second);
    var response;
    attempt, response := server.Notify(req, deliver);
  }

  /** A registration under another id does not disturb this browser's subscription. */
  method OtherIdsUntouched<S, E>(key: string, mine: Request, other: Request, s: S, t: S,
                                deliver: (Option<S>, string) -> DeliveryOutcome<E>)
    returns (attempt: DeliveryAttempt<S>)
    requires BrowserId(mine) != BrowserId(other)
    ensures attempt.subscription == Some(s)
  {
    var server := new PushServer<S, E>(key);
    var _ := server.Register(mine, s);
    var _ := server.Register(other, t);
    var response;
    attempt, response := server.Notify(mine, deliver);
  }

  /** The public key endpoint answers with the configured key on every call, between any other requests. */
  method PublicKeyIsStable<S, E>(key: string, req: Request, s: S, deliver: (Option<S>, string) -> DeliveryOutcome<E>)
    returns (before: Response<E>, after: Response<E>, attempt: DeliveryAttempt<S>)
    ensures before == after == Response(200, Text(key))
    ensures attempt.subscription == Some(s)
  {
    var server := new PushServer<S, E>(key);
    var _ := server.Register(req, s);
    before := server.VapidPublicKey();
    after := server.VapidPublicKey();
    var response;
    attempt, response := server.Notify(req, deliver);
  }
}
