/**
 * `AskGPTIntentHandler.handle`: read the `prompt` slot, insist on the API
 * key, resolve the model, post the completion request, and turn what comes
 * back into one of four spoken outcomes. The completion request is an input
 * here (`CompletionReply`); the model resolution and the request that is
 * sent are in the Skill module.
 */
module AskGpt {
  import opened Wrappers
  import opened Strings
  import opened IntentRouter
  import opened Responses

  /**
   * What the completion call produced. `Unreachable`: `requests.post` raised.
   * `Received`: the HTTP status; `errorText`, the text of the decoded JSON
   * body (`str(response.json())`), `None` when decoding raised; `content`,
   * `choices[0].message.content` of the decoded body, `None` when decoding or
   * any of the lookups raised.
   */
  datatype CompletionReply =
    | Unreachable
    | Received(status: int, errorText: Option<string>, content: Option<string>)

  /** The four ways the handler can answer. */
  datatype Outcome = ConfigMissing | Declined | Trouble | Succeeded(text: string)

  const PromptSlot: string := "prompt"
  const BillingKeywords: seq<string> := ["credit", "quota", "payment", "billing"]

  const ConfigMissingSpeech: string :=
    "I do apologise, but I seem to be missing my configuration. Perhaps the skill administrator could assist?"
  const DeclinedSpeech: string :=
    "I do apologise, but I'm unable to assist at the moment. Might we continue our chat later?"
  const TroubleSpeech: string :=
    "I do apologise, but I'm having a bit of trouble with that. Might we try again?"
  const TroubleReprompt: string := "What would you like to know?"
  const ContinueInvitation: string := " Shall we explore another topic?"
  const SuccessReprompt: string := "What else would you like to discuss?"

  /** The keyword test on the lower-cased error text. */
  predicate MentionsBilling(errorText: string) {
    exists k | k in BillingKeywords :: Contains(ToLowerAscii(errorText), k)
  }

  /** The statuses for which `raise_for_status()` raises. */
  predicate IsHttpError(status: int) {
    400 <= status < 600
  }

  predicate IsCreditStatus(status: int) {
    status == 402 || status == 429
  }

  /** Lines 137-152: the outcome of a completion call made with a key and a prompt. */
  function ClassifyReply(reply: CompletionReply): (o: Outcome)
    ensures o != ConfigMissing
    ensures o == Declined ==> reply.Received? && IsCreditStatus(reply.status)
    ensures o.Succeeded? ==> reply.Received? && !IsHttpError(reply.status) && reply.content == Some(o.text)
  {
    match reply
    case Unreachable => Trouble
    case Received(status, errorText, content) =>
      if IsCreditStatus(status) && errorText.None? then Trouble
      else if IsCreditStatus(status) && MentionsBilling(errorText.value) then Declined
      else if IsHttpError(status) then Trouble
      else if content.None? then Trouble
      else Succeeded(content.value)
  }

  /**
   * The handler's decision: a missing `prompt` slot raises before anything
   * else (Trouble), then a missing key answers ConfigMissing without calling
   * anything, otherwise the reply decides.
   */
  function AskOutcome(slots: map<string, Slot>, apiKeyPresent: bool, reply: CompletionReply): (o: Outcome)
    ensures o == ConfigMissing <==> PromptSlot in slots && !apiKeyPresent
    ensures PromptSlot !in slots ==> o == Trouble
  {
    if PromptSlot !in slots then Trouble
    else if !apiKeyPresent then ConfigMissing
    else ClassifyReply(reply)
  }

  /**
   * The response built for each outcome: every spoken text is inside the
   * SSML envelope, and only configuration-missing and decline end the
   * session (no reprompt).
   */
  function Render(o: Outcome): (r: Response)
    ensures UnwrapSsml(r.speak).Some?
    ensures r.reprompt.None? <==> o == ConfigMissing || o == Declined
  {
    match o
    case ConfigMissing =>
      UnwrapFormatResponse(ConfigMissingSpeech);
      Response(FormatResponse(ConfigMissingSpeech), None)
    case Declined =>
      UnwrapFormatResponse(DeclinedSpeech);
      Response(FormatResponse(DeclinedSpeech), None)
    case Trouble =>
      UnwrapFormatResponse(TroubleSpeech);
      Response(FormatResponse(TroubleSpeech), Some(TroubleReprompt))
    case Succeeded(text) =>
      UnwrapFormatResponse(text + ContinueInvitation);
      Response(FormatResponse(text + ContinueInvitation), Some(SuccessReprompt))
  }

  /** `AskGPTIntentHandler.handle` as seen by the platform. */
  function AskResponse(slots: map<string, Slot>, apiKeyPresent: bool, reply: CompletionReply): Response {
    Render(AskOutcome(slots, apiKeyPresent, reply))
  }

  /** Reads an outcome back from a response; the inverse of `Render`. */
  function OutcomeOf(resp: Response): Option<Outcome> {
    match resp.reprompt
    case None =>
      if resp.speak == FormatResponse(ConfigMissingSpeech) then Some(ConfigMissing)
      else if resp.speak == FormatResponse(DeclinedSpeech) then Some(Declined)
      else None
    case Some(reprompt) =>
      if reprompt == TroubleReprompt then
        if resp.speak == FormatResponse(TroubleSpeech) then Some(Trouble) else None
      else if reprompt == SuccessReprompt then
        match UnwrapSsml(resp.speak)
        case None => None
        case Some(said) =>
          if |said| >= |ContinueInvitation| && said[|said| - |ContinueInvitation|..] == ContinueInvitation
          then Some(Succeeded(said[..|said| - |ContinueInvitation|]))
          else None
      else None
  }

  /** Each outcome is told apart from its response: `Render` loses nothing. */
  lemma OutcomeOfRender(o: Outcome)
    ensures OutcomeOf(Render(o)) == Some(o)
  {
    assert |ConfigMissingSpeech| != |DeclinedSpeech|;
    assert |TroubleReprompt| != |SuccessReprompt|;
    if o.Succeeded? {
      var said := o.text + ContinueInvitation;
      UnwrapFormatResponse(said);
      assert said[|said| - |ContinueInvitation|..] == ContinueInvitation;
      assert said[..|said| - |ContinueInvitation|] == o.text;
    }
  }

  /** A missing `prompt` slot gives the trouble answer, with its reprompt, whatever else holds. */
  lemma MissingSlotIsTrouble(slots: map<string, Slot>, apiKeyPresent: bool, reply: CompletionReply)
    requires PromptSlot !in slots
    ensures AskResponse(slots, apiKeyPresent, reply) == Response(FormatResponse(TroubleSpeech), Some(TroubleReprompt))
  {
  }

  /** With the slot but without the key: the configuration message, no reprompt, whatever the reply. */
  lemma MissingKeyIsConfigMissing(slots: map<string, Slot>, reply: CompletionReply)
    requires PromptSlot in slots
    ensures AskResponse(slots, false, reply) == Response(FormatResponse(ConfigMissingSpeech), None)
  {
  }

  /**
   * The handler declines exactly when the status is 402 or 429 and the
   * lower-cased error text names credit, quota, payment or billing.
   */
  lemma DeclinedIffBilling(slots: map<string, Slot>, reply: CompletionReply)
    requires PromptSlot in slots
    ensures AskOutcome(slots, true, reply) == Declined <==>
      reply.Received? && IsCreditStatus(reply.status) && reply.errorText.Some? &&
      MentionsBilling(reply.errorText.value)
  {
  }

  /**
   * The trouble answer (with its reprompt) comes from an unreachable service,
   * any HTTP error status that is not a billing refusal, or a reply whose
   * content cannot be read.
   */
  lemma TroubleCases(slots: map<string, Slot>, reply: CompletionReply)
    requires PromptSlot in slots
    ensures AskOutcome(slots, true, reply) == Trouble <==>
      || reply.Unreachable?
      || (IsCreditStatus(reply.status) && (reply.errorText.None? || !MentionsBilling(reply.errorText.value)))
      || (IsHttpError(reply.status) && !IsCreditStatus(reply.status))
      || (!IsHttpError(reply.status) && reply.content.None?)
  {
  }

  /**
   * Success exactly when the status is not an HTTP error and the content was
   * read; the answer is the content and the invitation, in the envelope,
   * with the follow-up reprompt.
   */
  lemma SuccessIffContent(slots: map<string, Slot>, reply: CompletionReply, text: string)
    requires PromptSlot in slots
    ensures AskOutcome(slots, true, reply) == Succeeded(text) <==>
      reply.Received? && !IsHttpError(reply.status) && reply.content == Some(text)
    ensures AskOutcome(slots, true, reply) == Succeeded(text) ==>
      AskResponse(slots, true, reply) ==
        Response(FormatResponse(text + " Shall we explore another topic?"), Some("What else would you like to discuss?"))
  {
  }

  /** The keyword test ignores ASCII case: lower-casing the text first changes nothing. */
  lemma MentionsBillingIgnoresCase(errorText: string)
    ensures MentionsBilling(ToLowerAscii(errorText)) == MentionsBilling(errorText)
  {
    ToLowerAsciiIdempotent(errorText);
  }

  /** The text "Quota" names a billing keyword once lower-cased. */
  lemma QuotaMentionsBilling()
    ensures MentionsBilling("Quota")
  {
    assert ToLowerAscii("Quota") == "quota";
    assert StartsWith("quota", "quota");
    assert "quota" in BillingKeywords;
  }

  /** A 429 whose body speaks of a quota is declined, without a reprompt. */
  lemma QuotaRefusalDeclined(slots: map<string, Slot>)
    requires PromptSlot in slots
    ensures AskResponse(slots, true, Received(429, Some("Quota"), None)) ==
      Response(FormatResponse(DeclinedSpeech), None)
  {
    QuotaMentionsBilling();
  }

  /** A 429 whose body names none of the keywords gives the trouble answer, with its reprompt. */
  lemma RateLimitWithoutKeywordIsTrouble(slots: map<string, Slot>)
    requires PromptSlot in slots
    ensures AskResponse(slots, true, Received(429, Some("Busy"), None)) ==
      Response(FormatResponse(TroubleSpeech), Some(TroubleReprompt))
  {
    var lowered := ToLowerAscii("Busy");
    forall k | k in BillingKeywords ensures !Contains(lowered, k) {
      ContainsMeansSlice(lowered, k);
    }
    assert !MentionsBilling("Busy");
  }
}
