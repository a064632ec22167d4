/**
 * The skill as the platform sees it: route the request to the first
 * registered handler that accepts it and run that handler. Only the AskGPT
 * handler touches the model cache or the network; the others answer with a
 * fixed response.
 */
module Skill {
  import opened Wrappers
  import opened Strings
  import opened IntentRouter
  import opened Responses
  import opened ModelResolver
  import opened AskGpt

  /**
   * What the outside world answers during one request: whether the key is
   * configured, what the model listing returns (`None` for any failure) and
   * what the completion call returns.
   */
  datatype World = World(apiKeyPresent: bool, listing: Option<seq<ModelInfo>>, reply: CompletionReply)

  /** The body posted to the completion endpoint: the model and the single user message. */
  datatype CompletionRequest = CompletionRequest(model: string, prompt: Option<string>)

  /** The `handle` of a handler that does not call out: Launch, Help or CancelAndStop. */
  function FixedResponse(h: Handler): (r: Response)
    requires h != AskGpt
    ensures r.reprompt.None? <==> h == CancelAndStop
  {
    match h
    case Launch => LaunchResponse
    case Help => HelpResponse
    case CancelAndStop => GoodbyeResponse
  }

  /**
   * `AskGPTIntentHandler.handle` with the cache: the model is resolved (and
   * the listing possibly fetched) and the completion request sent only when
   * the slot and the key are there. `fetched` says whether the model listing
   * was requested over the network.
   */
  method HandleAsk(cache: ModelCache, now: int, world: World, slots: map<string, Slot>)
    returns (resp: Response, sent: Option<CompletionRequest>, fetched: bool)
    modifies cache
    ensures resp == AskResponse(slots, world.apiKeyPresent, world.reply)
    ensures PromptSlot in slots && world.apiKeyPresent ==>
      var r := Resolve(old(cache.State()), now, true, world.listing);
      && sent == Some(CompletionRequest(r.id, slots[PromptSlot].value))
      && fetched == r.fetched
      && cache.State() == r.cache
    ensures !(PromptSlot in slots && world.apiKeyPresent) ==>
      sent == None && !fetched && cache.State() == old(cache.State())
    ensures old(cache.Valid()) ==> cache.Valid() && (sent.Some? ==> StartsWith(sent.value.model, VendorPrefix))
  {
    if PromptSlot !in slots {
      return Render(Trouble), None, false;
    }
    var prompt := slots[PromptSlot].value;
    if !world.apiKeyPresent {
      return Render(ConfigMissing), None, false;
    }
    var model;
    model, fetched := cache.GetLatestModel(now, world.apiKeyPresent, world.listing);
    sent := Some(CompletionRequest(model, prompt));
    resp := Render(ClassifyReply(world.reply));
  }

  /**
   * One invocation of the skill. `None`: no handler accepts the request and
   * the platform's default applies.
   */
  method HandleRequest(cache: ModelCache, now: int, world: World, req: Request)
    returns (resp: Option<Response>, sent: Option<CompletionRequest>, fetched: bool)
    modifies cache
    ensures Route(req) == Some(AskGpt) ==>
      resp == Some(AskResponse(req.intent.value.slots, world.apiKeyPresent, world.reply))
    ensures Route(req) == Some(AskGpt) && PromptSlot in req.intent.value.slots && world.apiKeyPresent ==>
      var r := Resolve(old(cache.State()), now, true, world.listing);
      && sent == Some(CompletionRequest(r.id, req.intent.value.slots[PromptSlot].value))
      && fetched == r.fetched
      && cache.State() == r.cache
    ensures Route(req) == Some(AskGpt) && !(PromptSlot in req.intent.value.slots && world.apiKeyPresent) ==>
      sent == None && !fetched && cache.State() == old(cache.State())
    ensures Route(req) != Some(AskGpt) ==> sent == None && !fetched && cache.State() == old(cache.State())
    ensures Route(req).None? ==> resp.None?
    ensures Route(req).Some? && Route(req) != Some(AskGpt) ==> resp == Some(FixedResponse(Route(req).value))
    ensures old(cache.Valid()) ==> cache.Valid() && (sent.Some? ==> StartsWith(sent.value.model, VendorPrefix))
  {
    match Route(req) {
      case None =>
        resp, sent, fetched := None, None, false;
      case Some(h) =>
        if h == AskGpt {
          var r;
          r, sent, fetched := HandleAsk(cache, now, world, req.intent.value.slots);
          resp := Some(r);
        } else {
          resp, sent, fetched := Some(FixedResponse(h)), None, false;
        }
    }
  }

  /**
   * A complete session against a fresh process: the first question resolves
   * the model from the listing and the second, within the hour, reuses it
   * even though the listing is now unreachable, and without requesting it.
   */
  method TwoQuestions(ask: Request, listing: seq<ModelInfo>, reply: CompletionReply, t1: int, t2: int)
    returns (first: Option<CompletionRequest>, second: Option<CompletionRequest>, fetched1: bool, fetched2: bool)
    requires IsIntent(ask, "AskIntent") && PromptSlot in ask.intent.value.slots
    requires ChatModels(listing) != []
    requires 0 <= t2 - t1 < OneHour
    ensures first.Some? && second.Some?
    ensures first.value.model == Lookup(true, Some(listing)).value
    ensures second.value.model == first.value.model
    ensures fetched1 && !fetched2
  {
    assert CanHandle(AskGpt, ask);
    var cache := new ModelCache();
    var answer1, answer2;
    answer1, first, fetched1 := HandleRequest(cache, t1, World(true, Some(listing), reply), ask);
    answer2, second, fetched2 := HandleRequest(cache, t2, World(true, None, reply), ask);
    CachedWithinHour(EmptyCache, t1, t2, true, true, Some(listing), None);
  }
}
