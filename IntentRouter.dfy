/**
 * Intent routing: the `can_handle` predicates of the four request handlers
 * and the skill builder's dispatch, which asks the handlers in registration
 * order and gives the request to the first that accepts it.
 */
module IntentRouter {
  import opened Wrappers

  /** A filled slot of an intent; the platform may deliver a slot without a value. */
  datatype Slot = Slot(value: Option<string>)
  datatype Intent = Intent(name: string, slots: map<string, Slot>)
  /** The part of the voice request the handlers read: its type and, for an `IntentRequest`, the intent. */
  datatype Request = Request(requestType: string, intent: Option<Intent>)

  datatype Handler = Launch | AskGpt | Help | CancelAndStop

  /** `request.type == "IntentRequest" and request.intent.name == name`. */
  predicate IsIntent(r: Request, name: string) {
    r.requestType == "IntentRequest" && r.intent.Some? && r.intent.value.name == name
  }

  /** The `can_handle` method of each handler class. */
  predicate CanHandle(h: Handler, r: Request)
    ensures CanHandle(h, r) <==> RoutingTable(r) == Some(h)
  {
    match h
    case Launch => r.requestType == "LaunchRequest"
    case AskGpt => IsIntent(r, "AskIntent")
    case Help => IsIntent(r, "AMAZON.HelpIntent")
    case CancelAndStop => IsIntent(r, "AMAZON.CancelIntent") || IsIntent(r, "AMAZON.StopIntent")
  }

  /** The `add_request_handler` calls, in order. */
  const Registered: seq<Handler> := [Launch, AskGpt, Help, CancelAndStop]

  /** The index of the first handler of `hs` that accepts `r`, or `|hs|` when none does. */
  function FirstMatch(hs: seq<Handler>, r: Request): (k: nat)
    ensures k <= |hs|
    ensures k < |hs| ==> CanHandle(hs[k], r)
    ensures forall j :: 0 <= j < k ==> !CanHandle(hs[j], r)
  {
    if hs == [] then 0
    else if CanHandle(hs[0], r) then 0
    else 1 + FirstMatch(hs[1..], r)
  }

  /** The handler the skill dispatches `r` to; `None` leaves the request to the platform's default. */
  function Route(r: Request): (m: Option<Handler>)
    ensures forall h :: m == Some(h) <==> CanHandle(h, r)
  {
    var k := FirstMatch(Registered, r);
    assert k == |Registered| ==>
      !CanHandle(Launch, r) && !CanHandle(AskGpt, r) && !CanHandle(Help, r) && !CanHandle(CancelAndStop, r)
    by {
      if k == |Registered| {
        assert !CanHandle(Registered[0], r) && !CanHandle(Registered[1], r);
        assert !CanHandle(Registered[2], r) && !CanHandle(Registered[3], r);
      }
    }
    if k < |Registered| then Some(Registered[k]) else None
  }

  /** No request is accepted by two different handlers. */
  lemma HandlersDisjoint(h1: Handler, h2: Handler, r: Request)
    requires CanHandle(h1, r) && CanHandle(h2, r)
    ensures h1 == h2
  {
  }

  /**
   * Because the predicates are disjoint, the order of registration does not
   * matter: in ANY list of handlers that holds an accepting handler, the
   * first match is that handler.
   */
  lemma {:induction false} AnyOrderSelectsSame(hs: seq<Handler>, h: Handler, r: Request)
    requires h in hs && CanHandle(h, r)
    ensures FirstMatch(hs, r) < |hs| && hs[FirstMatch(hs, r)] == h
  {
    var k := FirstMatch(hs, r);
    var i :| 0 <= i < |hs| && hs[i] == h;
    assert k <= i;
    HandlersDisjoint(hs[k], h, r);
  }

  /** The closed table the dispatch amounts to, written as one match on the request. */
  function RoutingTable(r: Request): Option<Handler> {
    if r.requestType == "LaunchRequest" then Some(Launch)
    else if r.requestType != "IntentRequest" || r.intent.None? then None
    else
      match r.intent.value.name
      case "AskIntent" => Some(AskGpt)
      case "AMAZON.HelpIntent" => Some(Help)
      case "AMAZON.CancelIntent" => Some(CancelAndStop)
      case "AMAZON.StopIntent" => Some(CancelAndStop)
      case _ => None
  }

  /** First-match dispatch over the registered handlers is the closed table. */
  lemma RouteIsRoutingTable(r: Request)
    ensures Route(r) == RoutingTable(r)
  {
    match RoutingTable(r)
    case None =>
    case Some(h) => assert CanHandle(h, r);
  }
}
