/** The typed call dispatcher (lib/proto/utils.go:16-57, 71-86): a request is
    normalized into a payload, sent once through the caller's client, and the
    client's reply is decoded into the response container when there is one.
    The context the caller supplies is only forwarded to the client, so it is
    left out; payloads are JSON objects rather than their bytes. */
module Dispatch {
  import opened Wrappers
  import opened Wire
  import MouseEvents

  /** How the values of one request type and one response type are encoded
      and decoded: `custom` is the request type's own normalization when it
      has one (the `Normalizable` interface), `marshal` is `json.Marshal`,
      and `unmarshal` is `json.Unmarshal` into a container holding a value:
      it yields the container's new value, possibly partly filled, and an
      error. All three are outside this model. */
  datatype Codec<!Req, !T> = Codec(
    custom: Req -> Option<Result<Object, Error>>,
    marshal: Req -> Result<Object, Error>,
    unmarshal: (Bytes, T) -> (T, Option<Error>))

  /** `Normalize`: a request with its own normalization is encoded by it, any
      other by the default encoder. */
  function Normalize<Req>(m: Req, custom: Req -> Option<Result<Object, Error>>,
                          marshal: Req -> Result<Object, Error>): (r: Result<Object, Error>)
    ensures custom(m).Some? ==> r == custom(m).value
    ensures custom(m).None? ==> r == marshal(m)
  {
    match custom(m)
    case Some(n) => n
    case None => marshal(m)
  }

  /** A mouse event is always encoded by its own normalization, whatever the
      default encoder would do: a wheel event's payload holds both deltas. */
  lemma NormalizeMouseEvent(e: MouseEvents.InputDispatchMouseEvent,
                            marshal: MouseEvents.InputDispatchMouseEvent -> Result<Object, Error>)
    ensures Normalize(e, MouseEvents.Hook, marshal) == MouseEvents.Normalize(e)
    ensures var r := Normalize(e, MouseEvents.Hook, marshal);
            r.Success? && (e.Type == MouseEvents.MouseWheel ==>
              && "deltaX" in r.value && r.value["deltaX"] == Num(e.DeltaX)
              && "deltaY" in r.value && r.value["deltaY"] == Num(e.DeltaY))
  {
  }

  /** A request as the client receives it. */
  datatype Request = Request(sessionID: string, methodName: string, params: Object)

  /** The client that carries requests to the browser. The reply to the n-th
      request it is handed is `respond(n, request)`, a function standing for
      the transport and the browser; `sent` records the requests in order. */
  class Client {
    const respond: (nat, Request) -> Result<Bytes, Error>
    var sent: seq<Request>

    constructor (respond: (nat, Request) -> Result<Bytes, Error>)
      ensures this.respond == respond && sent == []
    {
      this.respond := respond;
      sent := [];
    }

    /** `Client.Call`: sends one request and returns the reply bytes or the
        transport's error. */
    method Call(sessionID: string, methodName: string, params: Object) returns (r: Result<Bytes, Error>)
      modifies this
      ensures sent == old(sent) + [Request(sessionID, methodName, params)]
      ensures r == respond(|old(sent)|, Request(sessionID, methodName, params))
    {
      r := respond(|sent|, Request(sessionID, methodName, params));
      sent := sent + [Request(sessionID, methodName, params)];
    }
  }

  /** What `Caller.CallContext` supplies: the client and the session id. */
  datatype Caller = Caller(client: Client, sessionID: string)

  /** A response container, the value a pointer passed as `res` points to. */
  class Container<T> {
    var value: T

    constructor (v: T)
      ensures value == v
    {
      value := v;
    }
  }

  /** The effect of one call: the client's record of requests afterwards, the
      content of the response container afterwards (none when there is no
      container), and the error returned. */
  datatype Outcome<T> = Outcome(sent: seq<Request>, res: Option<T>, err: Option<Error>)

  /** The effect of `Call` as a function of the state before it. */
  function CallOutcome<Req, T>(methodName: string, req: Req, res: Option<T>, sessionID: string,
                               sent: seq<Request>, respond: (nat, Request) -> Result<Bytes, Error>,
                               codec: Codec<Req, T>): Outcome<T>
  {
    match Normalize(req, codec.custom, codec.marshal)
    case Failure(e) => Outcome(sent, res, Some(e))
    case Success(payload) =>
      var q := Request(sessionID, methodName, payload);
      match respond(|sent|, q)
      case Failure(e) => Outcome(sent + [q], res, Some(e))
      case Success(bin) =>
        if res.None? then Outcome(sent + [q], None, None)
        else
          var decoded := codec.unmarshal(bin, res.value);
          Outcome(sent + [q], Some(decoded.0), decoded.1)
  }

  /** `Call`: normalizes the request, stops with the normalization's error if
      there is one, sends the payload through the caller's client, stops with
      the client's error if there is one, and decodes the reply into the
      response container when there is one, returning the decoder's error. */
  method Call<Req, T>(methodName: string, req: Req, res: Container?<T>, caller: Caller, codec: Codec<Req, T>)
    returns (err: Option<Error>)
    modifies caller.client, res
    ensures var o := CallOutcome(methodName, req, if res == null then None else Some(old(res.value)),
                                 caller.sessionID, old(caller.client.sent), caller.client.respond, codec);
            && caller.client.sent == o.sent
            && err == o.err
            && (res != null ==> o.res == Some(res.value))
  {
    var client, id := caller.client, caller.sessionID;
    var payload := Normalize(req, codec.custom, codec.marshal);
    if payload.Failure? {
      return Some(payload.error);
    }
    var bin := client.Call(id, methodName, payload.value);
    if bin.Failure? {
      return Some(bin.error);
    }
    if res != null {
      var decoded := codec.unmarshal(bin.value, res.value);
      res.value := decoded.0;
      if decoded.1.Some? {
        return decoded.1;
      }
    }
    return None;
  }

  /** A call hands the client exactly one request, carrying the caller's
      session, the method and the normalized payload, when normalization
      succeeds, and none when it fails; earlier requests are kept. */
  lemma CallSendsOnce<Req, T>(methodName: string, req: Req, res: Option<T>, sessionID: string,
                              sent: seq<Request>, respond: (nat, Request) -> Result<Bytes, Error>,
                              codec: Codec<Req, T>)
    ensures var o := CallOutcome(methodName, req, res, sessionID, sent, respond, codec);
            var n := Normalize(req, codec.custom, codec.marshal);
            && (n.Failure? ==> o.sent == sent && o.err == Some(n.error))
            && (n.Success? ==> o.sent == sent + [Request(sessionID, methodName, n.value)])
  {
  }

  /** An error of the client is returned as it is, and the response container
      is then left as it was. */
  lemma CallClientErrorUnchanged<Req, T>(methodName: string, req: Req, res: Option<T>, sessionID: string,
                                         sent: seq<Request>, respond: (nat, Request) -> Result<Bytes, Error>,
                                         codec: Codec<Req, T>)
    requires Normalize(req, codec.custom, codec.marshal).Success?
    requires respond(|sent|, Request(sessionID, methodName, Normalize(req, codec.custom, codec.marshal).value)).Failure?
    ensures var o := CallOutcome(methodName, req, res, sessionID, sent, respond, codec);
            var reply := respond(|sent|, Request(sessionID, methodName, Normalize(req, codec.custom, codec.marshal).value));
            o.err == Some(reply.error) && o.res == res
  {
  }

  /** The reply is decoded only into a container that exists: without one, a
      call whose request was sent and answered succeeds and decodes nothing. */
  lemma CallWithoutContainer<Req, T>(methodName: string, req: Req, sessionID: string,
                                     sent: seq<Request>, respond: (nat, Request) -> Result<Bytes, Error>,
                                     codec: Codec<Req, T>)
    ensures var o := CallOutcome(methodName, req, None, sessionID, sent, respond, codec);
            var n := Normalize(req, codec.custom, codec.marshal);
            && o.res == None
            && (o.err == None <==>
                  n.Success? && respond(|sent|, Request(sessionID, methodName, n.value)).Success?)
  {
  }

  /** A call succeeds exactly when normalization, the client and, if there is
      a container, the decoder all succeed. */
  lemma CallSucceedsIff<Req, T>(methodName: string, req: Req, res: Option<T>, sessionID: string,
                                sent: seq<Request>, respond: (nat, Request) -> Result<Bytes, Error>,
                                codec: Codec<Req, T>)
    ensures var o := CallOutcome(methodName, req, res, sessionID, sent, respond, codec);
            var n := Normalize(req, codec.custom, codec.marshal);
            o.err == None <==>
              && n.Success?
              && var reply := respond(|sent|, Request(sessionID, methodName, n.value));
              && reply.Success?
              && (res.Some? ==> codec.unmarshal(reply.value, res.value).1 == None)
  {
  }

  /** A wheel event sent through the dispatcher reaches the client with both
      deltas in its payload, even when they are zero. */
  lemma CallSendsWheelDeltas<T>(e: MouseEvents.InputDispatchMouseEvent, res: Option<T>, sessionID: string,
                                sent: seq<Request>, respond: (nat, Request) -> Result<Bytes, Error>,
                                codec: Codec<MouseEvents.InputDispatchMouseEvent, T>)
    requires codec.custom == MouseEvents.Hook
    requires e.Type == MouseEvents.MouseWheel
    ensures var o := CallOutcome("Input.dispatchMouseEvent", e, res, sessionID, sent, respond, codec);
            && |o.sent| == |sent| + 1
            && var p := o.sent[|sent|].params;
            && "deltaX" in p && p["deltaX"] == Num(e.DeltaX)
            && "deltaY" in p && p["deltaY"] == Num(e.DeltaY)
  {
    NormalizeMouseEvent(e, codec.marshal);
  }
}
