# alexa-friend-gpt core, in Dafny

A model of the decision logic of the Alexa skill in `lambda/lambda_function.py`,
which forwards a spoken question to OpenRouter's chat-completion API and speaks
the answer. Three pieces are modelled and proved:

- **Model resolver** (`ModelResolver`): `get_latest_model` with its one-slot
  `model_cache`. A cache entry younger than one hour answers the call; otherwise
  the model listing is filtered to OpenAI chat models and the one with the
  greatest `created_at` is chosen (ties to the earliest in listing order, as a
  stable `sorted(..., reverse=True)[0]` does) and written to the cache; any
  failure returns the constant `openai/gpt-4-1106-preview` and leaves the cache
  alone. The cache is the class `ModelCache`, updated in place by
  `GetLatestModel`; the function `Resolve` states what one call does.
- **Intent router** (`IntentRouter`): the four `can_handle` predicates, the
  registration order and first-match dispatch, and a closed routing table that
  the dispatch is proved equal to.
- **AskGPT outcome** (`AskGpt`, `Responses`): slot, key, HTTP status, error
  text and parsed content decide one of four outcomes (configuration missing,
  decline, trouble, success), each rendered through `format_response`'s SSML
  envelope. `Skill` puts the three together per request.

Supporting modules: `Wrappers` (Option) and `Strings` (Python's `<=` on `str`,
`startswith`, the substring `in`, and ASCII `lower()`). Python compares strings
code point by code point with a proper prefix smaller; Dafny's `<` on sequences
is the proper-prefix order, so `Strings.LexLe` defines Python's order and is
proved to be a total order that agrees with the first-difference definition.

Inputs in place of I/O: the API key is a boolean; the model listing is
`Option<seq<ModelInfo>>` (`None` for a network error, an HTTP error status or a
body that does not decode); the completion call is a `CompletionReply`
(`Unreachable`, or the status, the text of the decoded error body and the
extracted content). Time is an integer clock in seconds (one hour is 3600).

Points where the code's behaviour is easy to misread, and what the model does:

- The cache hit also needs the cached id to be non-empty (Python truthiness of
  `model_cache['model']`, line 23).
- A missing `created_at` is the sort key `""`, the least string, so such a model
  loses to any model with a non-empty `created_at`; among equal keys (an absent
  `created_at` ties with an empty one) the earliest in listing order wins.
- Only statuses 400 to 599 make `raise_for_status()` raise. Any other status
  (a 3xx, say) goes on to read the content and succeeds if it is there.
- The resolver never signals a configuration error to its caller; it falls
  back at once (lines 28-30, 68-70).
- The Help and CancelAndStop predicates compare against the literal names
  `AMAZON.HelpIntent`, `AMAZON.CancelIntent` and `AMAZON.StopIntent`.
- The code reads the clock twice (lines 24 and 63); the model uses one `now`
  for both reads.

## Model

| member | source | states |
|---|---|---|
| `Strings.LexLe` | lambda/lambda_function.py:56-60 | Python's `<=` on str, the order of the `created_at` sort; every prefix is `<=` its extension, and the lemmas below prove it a total order equal to the first-difference definition |
| `Strings.LexLeMeansFirstDifference` | lambda/lambda_function.py:56-60 | the sort's string order holds exactly when `a` begins `b` or, at the first differing position, `a` has the smaller code point (both directions) |
| `Strings.LexLeReflexive` | lambda/lambda_function.py:56-60 | every key is `<=` itself |
| `Strings.LexLeTotal` | lambda/lambda_function.py:56-60 | any two keys are comparable, so the sort is defined on every listing |
| `Strings.LexLeAntisymmetric` | lambda/lambda_function.py:56-60 | keys `<=` each other both ways are equal: ties are exactly equal `created_at` |
| `Strings.LexLeTransitive` | lambda/lambda_function.py:56-60 | the order is transitive |
| `Strings.Contains` | lambda/lambda_function.py:139 | the substring test `keyword in text`; a contained string is never longer than its container, and `ContainsMeansSlice` proves it equal to "some slice equals the keyword" |
| `Strings.ContainsMeansSlice` | lambda/lambda_function.py:139 | `keyword in text` holds exactly when some slice of the text equals the keyword |
| `Strings.ToLowerAscii` | lambda/lambda_function.py:139 | `lower()` keeps the length, lowers each ASCII letter, and leaves no upper-case ASCII letter |
| `Strings.ToLowerAsciiIdempotent` | lambda/lambda_function.py:139 | lowering twice is lowering once |
| `ModelResolver.ChatModels` | lambda/lambda_function.py:46-50 | the candidates are exactly the listing's models whose id starts with `openai/` and whose capabilities include `chat`; empty exactly when the listing has none |
| `ModelResolver.ChatPositionsLocate` | lambda/lambda_function.py:46-50 | the candidates keep listing order: they stand in the listing at strictly increasing positions that include every chat model |
| `ModelResolver.LatestIndex` | lambda/lambda_function.py:55-60 | the chosen candidate's `created_at` (absent = `""`) is `>=` every candidate's, and every earlier candidate's is strictly smaller: the earliest of the latest, as the stable reverse sort puts first |
| `ModelResolver.LatestIndexUnique` | lambda/lambda_function.py:55-60 | only one index has those two properties, so the choice is deterministic |
| `ModelResolver.Lookup` | lambda/lambda_function.py:27-66 | the live lookup yields an id exactly when the key is present, the listing succeeded and some candidate survived the filter; that id starts with `openai/` |
| `ModelResolver.LookupPicksEarliestLatest` | lambda/lambda_function.py:46-66 | the id returned is that of the listing entry, a chat model, whose `created_at` is greatest among chat models and strictly greater than every earlier chat model's |
| `ModelResolver.Resolve` | lambda/lambda_function.py:19-70 | one call of `get_latest_model` on a given cache: a listing is requested only on a miss with a key; the cache afterwards is either the old one or (returned id, `now`); the id returned is the fresh cached id, the looked-up id or the fallback (the lemmas below pin down which) |
| `ModelResolver.FreshCacheAnswers` | lambda/lambda_function.py:22-25 | with both cache fields set and `now - timestamp < 3600`, the cached id is returned, no listing is requested and the cache is unchanged |
| `ModelResolver.FailedLookupFallsBack` | lambda/lambda_function.py:27-70 | on a miss, a missing key, a failed listing or no candidate gives `openai/gpt-4-1106-preview` (never a stale cached id) and leaves the cache, stale entry included, unchanged |
| `ModelResolver.CacheWrittenOnlyOnSuccess` | lambda/lambda_function.py:22-70 | the cache changes exactly after a miss and a successful lookup (both directions): then the listing was fetched, the lookup's id is returned and the cache holds that id and `now`, which differs from the old entry |
| `ModelResolver.FetchOnlyOnMissWithKey` | lambda/lambda_function.py:22-41 | the listing is requested over the network exactly when the cache misses and the key is configured |
| `ModelResolver.ResolvePreservesValid` | lambda/lambda_function.py:14-70 | a valid cache (both fields or neither, id starting with `openai/`) stays valid and every returned id starts with `openai/` |
| `ModelResolver.CachedWithinHour` | lambda/lambda_function.py:22-66 | after a successful resolution at `t1`, a call at `t2` with `t2 - t1 < 3600` returns the same id without a request, whatever the key and listing now are |
| `ModelResolver.EmptyCacheNotPoisoned` | lambda/lambda_function.py:14-70 | an empty cache whose lookup fails returns the fallback and stays empty |
| `ModelResolver.ModelCache.constructor` | lambda/lambda_function.py:14-17 | the cache starts with both fields `None` |
| `ModelResolver.ModelCache.GetLatestModel` | lambda/lambda_function.py:19-70 | the id returned, whether the listing was fetched, and the new cache are those of `Resolve` on the old cache; validity is kept |
| `IntentRouter.CanHandle` | lambda/lambda_function.py:73-200 | the four `can_handle` predicates (LaunchRequest; IntentRequest with AskIntent, AMAZON.HelpIntent, AMAZON.CancelIntent or AMAZON.StopIntent); each accepts exactly the requests the closed routing table assigns to its handler |
| `IntentRouter.FirstMatch` | lambda/lambda_function.py:212-216 | dispatch picks the first handler in the list that accepts the request, or none if none does |
| `IntentRouter.Route` | lambda/lambda_function.py:72-216 | the registered dispatch selects handler `h` exactly when `h`'s `can_handle` accepts the request |
| `IntentRouter.HandlersDisjoint` | lambda/lambda_function.py:73-200 | no request is accepted by two handlers: LaunchRequest, AskIntent, AMAZON.HelpIntent and AMAZON.CancelIntent/StopIntent are disjoint |
| `IntentRouter.AnyOrderSelectsSame` | lambda/lambda_function.py:212-216 | in any registration order the first match is the one accepting handler: the order does not matter |
| `IntentRouter.RouteIsRoutingTable` | lambda/lambda_function.py:72-216 | first-match dispatch equals the closed table on request type and intent name |
| `Responses.FormatResponse` | lambda/lambda_function.py:93-95 | the result is `<speak><voice name="Ivy">`, then the text unchanged, then `</voice></speak>` |
| `Responses.UnwrapFormatResponse` | lambda/lambda_function.py:93-95 | taking the envelope off a formatted text gives the text back |
| `Responses.FormatResponseOfUnwrap` | lambda/lambda_function.py:93-95 | every string that unwraps is the envelope of its content |
| `Responses.FormatResponseInjective` | lambda/lambda_function.py:93-95 | different texts are spoken differently |
| `AskGpt.ClassifyReply` | lambda/lambda_function.py:129-152 | the outcome of the completion call: never configuration-missing; a decline only for a 402 or 429; success only for a status outside 400-599 whose content was read, and with that content (exact conditions in `DeclinedIffBilling`, `TroubleCases`, `SuccessIffContent`) |
| `AskGpt.AskOutcome` | lambda/lambda_function.py:97-175 | the decision of `AskGPTIntentHandler.handle`: configuration-missing exactly when the slot is present and the key absent; a missing slot is always trouble; otherwise the reply's classification |
| `AskGpt.Render` | lambda/lambda_function.py:105-175 | the response for each outcome: always inside the SSML envelope of `format_response`, and without a reprompt exactly for configuration-missing and decline; `OutcomeOfRender` proves the outcome can be read back |
| `AskGpt.OutcomeOfRender` | lambda/lambda_function.py:97-175 | the four outcomes render to responses from which the outcome (and the answer text) can be read back |
| `AskGpt.MissingSlotIsTrouble` | lambda/lambda_function.py:99-101 | without a `prompt` slot the answer is the trouble message with reprompt "What would you like to know?", key or no key |
| `AskGpt.MissingKeyIsConfigMissing` | lambda/lambda_function.py:103-112 | with the slot and without the key the answer is the configuration message with no reprompt, whatever the completion service would have said |
| `AskGpt.DeclinedIffBilling` | lambda/lambda_function.py:136-146 | the decline answer comes exactly from a 402 or 429 whose lower-cased error text contains credit, quota, payment or billing |
| `AskGpt.TroubleCases` | lambda/lambda_function.py:129-175 | the trouble answer comes exactly from an unreachable service, a 402/429 without a keyword or with an undecodable body, another status in 400-599, or unreadable content |
| `AskGpt.SuccessIffContent` | lambda/lambda_function.py:148-164 | success exactly when the status is outside 400-599 and the content was read; it speaks the envelope of content + " Shall we explore another topic?" with reprompt "What else would you like to discuss?" |
| `AskGpt.MentionsBillingIgnoresCase` | lambda/lambda_function.py:139 | the keyword test gives the same verdict on a text and on its lower-cased form |
| `AskGpt.QuotaMentionsBilling` | lambda/lambda_function.py:139 | the capitalised text "Quota" passes the keyword test: lower-casing comes before the search |
| `AskGpt.QuotaRefusalDeclined` | lambda/lambda_function.py:136-146 | a 429 with body text "Quota" is declined with no reprompt |
| `AskGpt.RateLimitWithoutKeywordIsTrouble` | lambda/lambda_function.py:136-175 | a 429 with body text "Busy" gives the trouble answer with its reprompt |
| `Skill.FixedResponse` | lambda/lambda_function.py:76-209 | of the Launch, Help and CancelAndStop answers, only CancelAndStop has no reprompt and so ends the session |
| `Skill.HandleAsk` | lambda/lambda_function.py:97-175 | the answer is the classified outcome; only when slot and key are present is the model resolved (listing fetched exactly as `Resolve` says, cache updated as it says) and the completion request (resolved model, prompt) sent; otherwise no listing request, no completion request and an unchanged cache; any model sent starts with `openai/` |
| `Skill.HandleRequest` | lambda/lambda_function.py:72-217 | a request goes to the routed handler: AskGPT as above (including whether the listing was fetched); Launch/Help/CancelAndStop give their fixed answers with no listing request, no completion request and an unchanged cache; no handler gives no response and no effect |
| `Skill.TwoQuestions` | lambda/lambda_function.py:19-134 | from a fresh process, two questions within the hour send the same model, the one the listing selected; the listing is fetched the first time and not the second, when it would fail |

## Left out

- Network I/O (`requests.get`, `requests.post`), URLs and headers: replaced by the listing and completion-reply inputs.
- JSON decoding: the decoded listing is taken as a list of models. A body of any other shape, or an entry without `id`, raises inside the comprehension and is modelled as a failed listing (`None`).
- A `created_at` present with a non-string value (JSON `null`, a number): sorting it against strings raises `TypeError` and the resolver falls back; the model has only absent or string `created_at`.
- A completion `content` that is not a string (JSON `null` would be spoken as "None"): the model's content is a string or unreadable.
- `os.environ` is a boolean; `datetime.now()` is an integer `now` in seconds, one value for both reads; sub-second precision of `timedelta` is not modelled.
- Unicode `str.lower()`: only ASCII letters are lowered (the keywords are ASCII).
- An `IntentRequest` without an intent: `request.intent.name` would raise inside `can_handle` (line 91); the platform always supplies the intent, and the model treats such a request as accepted by no handler.
- `slots` being `None` (no slots at all) raises like a missing key; the model represents it as an empty slot map.
- The Alexa SDK (`SkillBuilder`, `AbstractRequestHandler`, the response builder, `lambda_handler`) and its default for unhandled requests: responses are a plain datatype, dispatch is `FirstMatch`, and an unhandled request yields no response.
- Sharing `model_cache` between concurrent invocations: only sequential use of the cache is modelled.
- The fixed Launch, Help and goodbye texts are plain speech, not SSML; long string literals are opaque to the verifier beyond their length, so this is stated here and not proved.
