/** The provider adapter: lexical routing of a model id to one of two
    chat-completion services, and the reduction of either service's reply to
    one response shape. The HTTP exchange itself is a parameter: a function
    from the request that would be posted to what came back. */
module Ai {
  import opened Wrappers
  import opened Schema

  datatype ChatMessage = ChatMessage(role: Role, content: string)

  /** What is posted to a provider. `maxOutputTokens` is sent as
      `max_completion_tokens` to OpenAI and as `max_tokens` to DeepSeek. */
  datatype Request = Request(
    provider: ProviderTag,
    model: string,
    messages: seq<ChatMessage>,
    maxOutputTokens: int,
    temperature: Option<real>)

  /** The parts of a completion payload the adapter reads. Absent entries are
      the payload's missing or null fields. */
  datatype Choice = Choice(content: Option<string>)
  datatype RawUsage = RawUsage(promptTokens: Option<int>, completionTokens: Option<int>, totalTokens: Option<int>)
  datatype Completion = Completion(choices: seq<Choice>, model: string, usage: Option<RawUsage>)

  /** A reply, or a rejected call with its error message and, when the service
      answered with an error body, that body's message. */
  datatype Outcome = Replied(completion: Completion) | Failed(message: string, apiMessage: Option<string>)

  type Provider = Request -> Outcome

  datatype AIResponse = AIResponse(content: string, model: string, usage: Usage)

  const MaxOutputTokens: int := 8192
  const DeepSeekTemperature: real := 0.7

  /** The message of the `TypeError` thrown when a payload has no first choice. */
  const NoChoiceMessage: string := "Cannot read properties of undefined (reading 'message')"

  // ---------------------------------------------------------------------------
  // Routing

  predicate IsOpenAIModel(model: string)
  {
    "gpt-" <= model || "o1-" <= model
  }

  predicate IsDeepSeekModel(model: string)
  {
    "deepseek-" <= model
  }

  /** The provider a model id is sent to, prefixes checked in order: `gpt-` or `o1-`,
      then `deepseek-`; none when neither prefix matches. */
  function Route(model: string): (r: Option<ProviderTag>)
    ensures r == Some(OpenAI) <==> IsOpenAIModel(model)
    ensures r == Some(DeepSeek) <==> IsDeepSeekModel(model)
    ensures r == None <==> !IsOpenAIModel(model) && !IsDeepSeekModel(model)
  {
    assert IsOpenAIModel(model) ==> model[0] != 'd';
    if IsOpenAIModel(model) then Some(OpenAI)
    else if IsDeepSeekModel(model) then Some(DeepSeek)
    else None
  }

  /** Routing is decided by the prefix alone: ids that are not in the registry
      are routed too. */
  lemma RoutingIgnoresRegistry()
    ensures !IsRegistered("o1-mini") && Route("o1-mini") == Some(OpenAI)
    ensures !IsRegistered("deepseek-reasoner") && Route("deepseek-reasoner") == Some(DeepSeek)
    ensures !IsRegistered("llama-3") && Route("llama-3") == None
  {
    assert "o1-" <= "o1-mini";
    assert "deepseek-" <= "deepseek-reasoner";
    assert "gpt-"[0] != "llama-3"[0] && "o1-"[0] != "llama-3"[0] && "deepseek-"[0] != "llama-3"[0];
  }

  /** Every registry entry's provider tag is the provider its id routes to. */
  lemma RegistryAgreesWithRouting()
    ensures forall i :: 0 <= i < |AvailableModels| ==>
      Route(AvailableModels[i].id) == Some(AvailableModels[i].provider)
  {
    assert "gpt-" <= "gpt-5";
    assert "gpt-" <= "gpt-4o";
    assert "deepseek-" <= "deepseek-chat";
    assert "deepseek-" <= "deepseek-coder";
  }

  // ---------------------------------------------------------------------------
  // Adapters

  function OpenAIRequest(messages: seq<ChatMessage>, model: string): Request
  {
    Request(OpenAI, model, messages, MaxOutputTokens, None)
  }

  function DeepSeekRequest(messages: seq<ChatMessage>, model: string): Request
  {
    Request(DeepSeek, model, messages, MaxOutputTokens, Some(DeepSeekTemperature))
  }

  /** `x || 0` for a token counter. */
  function CountOrZero(n: Option<int>): int
  {
    if n.Some? then n.value else 0
  }

  function UsageOf(u: Option<RawUsage>): (r: Usage)
    ensures u.None? ==> r == Usage(0, 0, 0)
    ensures u.Some? && u.value.promptTokens.Some? ==> r.promptTokens == u.value.promptTokens.value
    ensures u.Some? && u.value.completionTokens.Some? ==> r.completionTokens == u.value.completionTokens.value
    ensures u.Some? && u.value.totalTokens.Some? ==> r.totalTokens == u.value.totalTokens.value
    ensures u.Some? && u.value.promptTokens.None? ==> r.promptTokens == 0
    ensures u.Some? && u.value.completionTokens.None? ==> r.completionTokens == 0
    ensures u.Some? && u.value.totalTokens.None? ==> r.totalTokens == 0
  {
    if u.None? then Usage(0, 0, 0)
    else Usage(CountOrZero(u.value.promptTokens), CountOrZero(u.value.completionTokens),
               CountOrZero(u.value.totalTokens))
  }

  /** The first choice's content (`''` when missing), the model the provider
      reports, and the counters; an error message when there is no first
      choice. */
  function Normalize(c: Completion): (r: Result<AIResponse, string>)
    ensures r.Err? <==> c.choices == []
    ensures r.Err? ==> r.error == NoChoiceMessage
    ensures r.Ok? ==> r.value.model == c.model && r.value.usage == UsageOf(c.usage)
    ensures r.Ok? && c.choices[0].content.Some? ==> r.value.content == c.choices[0].content.value
    ensures r.Ok? && c.choices[0].content.None? ==> r.value.content == ""
  {
    if |c.choices| == 0 then Err(NoChoiceMessage)
    else
      var content := c.choices[0].content;
      Ok(AIResponse(if content.Some? then content.value else "", c.model, UsageOf(c.usage)))
  }

  /** One OpenAI call: a reply is normalised, and every failure, including a
      reply without a first choice, is re-raised with the `OpenAI Error: ` tag. */
  function SendToOpenAI(messages: seq<ChatMessage>, model: string, provider: Provider): (r: Result<AIResponse, string>)
    ensures var out := provider(OpenAIRequest(messages, model));
      && (out.Failed? ==> r == Err("OpenAI Error: " + out.message))
      && (out.Replied? && Normalize(out.completion).Ok? ==> r == Normalize(out.completion))
      && (out.Replied? && Normalize(out.completion).Err? ==> r == Err("OpenAI Error: " + NoChoiceMessage))
    ensures r.Err? ==> "OpenAI Error: " <= r.error
  {
    match provider(OpenAIRequest(messages, model))
    case Failed(message, _) => Err("OpenAI Error: " + message)
    case Replied(c) =>
      match Normalize(c)
      case Ok(resp) => Ok(resp)
      case Err(message) => Err("OpenAI Error: " + message)
  }

  /** The error message of a failed DeepSeek call: the error body's message
      when it has a non-empty one, the call's own message otherwise. */
  function DeepSeekMessage(message: string, apiMessage: Option<string>): (r: string)
    ensures apiMessage.Some? && apiMessage.value != "" ==> r == apiMessage.value
    ensures apiMessage.None? || apiMessage.value == "" ==> r == message
  {
    if apiMessage.Some? && apiMessage.value != "" then apiMessage.value else message
  }

  /** One DeepSeek call: a reply is normalised, and every failure is
      re-raised with the `DeepSeek Error: ` tag, preferring the message of the
      service's error body. */
  function SendToDeepSeek(messages: seq<ChatMessage>, model: string, provider: Provider): (r: Result<AIResponse, string>)
    ensures var out := provider(DeepSeekRequest(messages, model));
      && (out.Failed? ==> r == Err("DeepSeek Error: " + DeepSeekMessage(out.message, out.apiMessage)))
      && (out.Replied? && Normalize(out.completion).Ok? ==> r == Normalize(out.completion))
      && (out.Replied? && Normalize(out.completion).Err? ==> r == Err("DeepSeek Error: " + NoChoiceMessage))
    ensures r.Err? ==> "DeepSeek Error: " <= r.error
  {
    match provider(DeepSeekRequest(messages, model))
    case Failed(message, apiMessage) => Err("DeepSeek Error: " + DeepSeekMessage(message, apiMessage))
    case Replied(c) =>
      match Normalize(c)
      case Ok(resp) => Ok(resp)
      case Err(message) => Err("DeepSeek Error: " + message)
  }

  /** The request the adapter posts for a model id, if the id is routed. */
  function RequestFor(messages: seq<ChatMessage>, model: string): (r: Option<Request>)
    ensures r.Some? <==> Route(model).Some?
    ensures r.Some? ==>
      && r.value.provider == Route(model).value
      && r.value.model == model
      && r.value.messages == messages
      && r.value.maxOutputTokens == 8192
  {
    match Route(model)
    case None => None
    case Some(OpenAI) => Some(OpenAIRequest(messages, model))
    case Some(DeepSeek) => Some(DeepSeekRequest(messages, model))
  }

  /** The adapter's entry point: dispatch on the model id. */
  function SendMessage(messages: seq<ChatMessage>, model: string, provider: Provider): (r: Result<AIResponse, string>)
    ensures Route(model).None? ==> r == Err("Unknown model: " + model)
    ensures Route(model) == Some(OpenAI) && r.Err? ==> "OpenAI Error: " <= r.error
    ensures Route(model) == Some(DeepSeek) && r.Err? ==> "DeepSeek Error: " <= r.error
  {
    match Route(model)
    case None => Err("Unknown model: " + model)
    case Some(OpenAI) => SendToOpenAI(messages, model, provider)
    case Some(DeepSeek) => SendToDeepSeek(messages, model, provider)
  }

  /** An id that no prefix matches fails the same way whatever the provider
      would have done: no request is made. */
  lemma UnknownModelMakesNoCall(messages: seq<ChatMessage>, model: string, p: Provider, q: Provider)
    requires Route(model).None?
    ensures SendMessage(messages, model, p) == SendMessage(messages, model, q) == Err("Unknown model: " + model)
    ensures RequestFor(messages, model).None?
  {
  }

  /** The outcome depends on the provider only through its answer to the one
      request the adapter builds: the full history, the requested model and
      the 8192-token cap. */
  lemma {:induction false} OneRequestPerMessage(messages: seq<ChatMessage>, model: string, p: Provider, q: Provider)
    requires RequestFor(messages, model).Some?
    requires p(RequestFor(messages, model).value) == q(RequestFor(messages, model).value)
    ensures SendMessage(messages, model, p) == SendMessage(messages, model, q)
  {
    match Route(model)
    case Some(OpenAI) =>
      assert RequestFor(messages, model).value == OpenAIRequest(messages, model);
    case Some(DeepSeek) =>
      assert RequestFor(messages, model).value == DeepSeekRequest(messages, model);
  }

  /** A reply with a first choice becomes a response carrying that choice's
      content or `''`, the model the provider echoed (whatever was requested),
      and each counter or `0`. */
  lemma {:induction false} ReplyBecomesResponse(messages: seq<ChatMessage>, model: string, p: Provider, c: Completion)
    requires RequestFor(messages, model).Some?
    requires p(RequestFor(messages, model).value) == Replied(c)
    requires |c.choices| > 0
    ensures SendMessage(messages, model, p).Ok?
    ensures var r := SendMessage(messages, model, p).value;
      && r.content == (if c.choices[0].content.Some? then c.choices[0].content.value else "")
      && r.model == c.model
      && r.usage == UsageOf(c.usage)
  {
    OneRequestPerMessage(messages, model, p, _ => Replied(c));
  }

  /** The echoed model can differ from the requested one. */
  lemma EchoedModelMayDiffer()
    ensures var p: Provider := _ => Replied(Completion([Choice(None)], "gpt-5-2025-08-07", None));
      SendMessage([], "gpt-5", p) == Ok(AIResponse("", "gpt-5-2025-08-07", Usage(0, 0, 0)))
  {
    assert "gpt-" <= "gpt-5";
  }

  /** A failed call is re-raised with its provider's tag; DeepSeek prefers the
      message of the service's error body. */
  lemma {:induction false} FailureIsTagged(messages: seq<ChatMessage>, model: string, p: Provider, message: string, apiMessage: Option<string>)
    requires RequestFor(messages, model).Some?
    requires p(RequestFor(messages, model).value) == Failed(message, apiMessage)
    ensures Route(model) == Some(OpenAI) ==>
      SendMessage(messages, model, p) == Err("OpenAI Error: " + message)
    ensures Route(model) == Some(DeepSeek) ==>
      SendMessage(messages, model, p) == Err("DeepSeek Error: " + DeepSeekMessage(message, apiMessage))
  {
    OneRequestPerMessage(messages, model, p, _ => Failed(message, apiMessage));
  }

  /** A reply without any choice is a failure too, tagged like the others. */
  lemma {:induction false} EmptyReplyFails(messages: seq<ChatMessage>, model: string, p: Provider, c: Completion)
    requires RequestFor(messages, model).Some?
    requires p(RequestFor(messages, model).value) == Replied(c)
    requires c.choices == []
    ensures SendMessage(messages, model, p).Err?
  {
    OneRequestPerMessage(messages, model, p, _ => Replied(c));
  }
}
