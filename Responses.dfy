/**
 * What a handler gives back to the voice platform: the text to speak and an
 * optional reprompt (the `speak(...)` and `ask(...)` calls on the response
 * builder; without `ask` the session ends). Also the SSML envelope of
 * `AskGPTIntentHandler.format_response` and the fixed answers of the
 * Launch, Help and CancelAndStop handlers.
 */
module Responses {
  import opened Wrappers
  import opened Strings

  datatype Response = Response(speak: string, reprompt: Option<string>)

  const SsmlOpen: string := "<speak><voice name=\"Ivy\">"
  const SsmlClose: string := "</voice></speak>"

  /** `format_response(text)`: `text` between the two tags, not escaped. */
  function FormatResponse(text: string): (r: string)
    ensures StartsWith(r, SsmlOpen)
    ensures |r| == |SsmlOpen| + |text| + |SsmlClose|
    ensures r[|SsmlOpen|..|SsmlOpen| + |text|] == text
    ensures r[|SsmlOpen| + |text|..] == SsmlClose
  {
    SsmlOpen + text + SsmlClose
  }

  /** The text inside the envelope, when `s` is one. */
  function UnwrapSsml(s: string): Option<string> {
    if |s| >= |SsmlOpen| + |SsmlClose| && StartsWith(s, SsmlOpen) && s[|s| - |SsmlClose|..] == SsmlClose
    then Some(s[|SsmlOpen|..|s| - |SsmlClose|])
    else None
  }

  /** Unwrapping undoes `FormatResponse`. */
  lemma UnwrapFormatResponse(text: string)
    ensures UnwrapSsml(FormatResponse(text)) == Some(text)
  {
    var s := FormatResponse(text);
    assert s[|s| - |SsmlClose|..] == SsmlClose;
  }

  /** Whatever unwraps was produced by `FormatResponse` from the unwrapped text. */
  lemma FormatResponseOfUnwrap(s: string)
    requires UnwrapSsml(s).Some?
    ensures FormatResponse(UnwrapSsml(s).value) == s
  {
    var t := UnwrapSsml(s).value;
    assert s == s[..|SsmlOpen|] + t + s[|s| - |SsmlClose|..];
  }

  /** Different texts give different envelopes. */
  lemma FormatResponseInjective(t1: string, t2: string)
    requires FormatResponse(t1) == FormatResponse(t2)
    ensures t1 == t2
  {
    UnwrapFormatResponse(t1);
    UnwrapFormatResponse(t2);
  }

  const LaunchSpeech: string :=
    "Hello! I'm your GPT friend, delighted to assist you today. " +
    "I rather enjoy thoughtful discussions on any topic you fancy. " +
    "What shall we explore together?"
  const HelpSpeech: string :=
    "I'm your GPT friend, and I'd be delighted to engage in thoughtful discussions " +
    "on any topic that interests you. Whether it's literature, science, philosophy, or " +
    "current events, I'm quite well-versed in a variety of subjects. " +
    "Perhaps you'd like to ask about 'the impact of artificial intelligence on society' or " +
    "'the most influential books in history'? What piques your interest?"
  const GoodbyeSpeech: string :=
    "It's been a pleasure chatting. Do come back when you'd like another enlightening conversation!"

  /** `LaunchRequestHandler.handle`: a greeting that keeps the session open. */
  const LaunchResponse: Response := Response(LaunchSpeech, Some("What would you like to discuss?"))
  /** `HelpIntentHandler.handle`: suggestions, session kept open. */
  const HelpResponse: Response := Response(HelpSpeech, Some("What would you like to explore?"))
  /** `CancelAndStopIntentHandler.handle`: a farewell with no reprompt, which ends the session. */
  const GoodbyeResponse: Response := Response(GoodbyeSpeech, None)
}
