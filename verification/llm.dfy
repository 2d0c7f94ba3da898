/**
  The chat-completion wrapper: which payload is sent where, and which text comes back.
  The environment (`LLM_BASE_URL`, `LLM_API_KEY`, `LLM_MODEL_NAME`) is a configuration
  value, and the remote endpoint is an oracle `server` from request to HTTP outcome.
*/
module Llm {
  import opened Wrappers
  import opened Text
  import opened ChatTypes

  const DefaultBaseUrl: string := "https://openrouter.ai/api/v1"
  const DefaultModel: string := "google/gemma-3-27b-it:free"
  const Temperature: real := 0.2
  const CompletionsPath: string := "/chat/completions"

  /** Returned in place of a reply whenever the model could not provide one. */
  const FallbackReply: string := "متاسفانه" + " در پردازش پیام شما مشکلی رخ داد. لطفاً دوباره تلاش کنید."
  /** Returned in place of a title whenever the model could not provide one. */
  const FallbackTitle: string := "گفت\U{200C}وگوی بدون عنوان"

  // The instruction prompts are opaque: each is represented by its opening line.
  const SystemPrompt: string := "You are “Iran AI Assistant”, a structured, factual, expert-level reasoning model for Iranian users."
  const TitlePrompt: string := "You generate a short title (max 6 words) summarizing the full conversation topic. The title must be factual, concise, and neutral. No emojis. No quotes. No trailing punctuation."
  const PlannerPrompt: string := "تو یک عامل برنامه\U{200C}ریز (Task Planner Agent) هستی."
  const SummaryPrompt: string := "تو یک ابزار خلاصه\U{200C}ساز هستی."

  /** The three environment variables; `None` is an unset variable. */
  datatype LlmConfig = LlmConfig(baseUrl: Option<string>, apiKey: Option<string>, model: Option<string>)

  /** `!apiKey` is false: the key is set and not empty. */
  predicate HasApiKey(cfg: LlmConfig) {
    cfg.apiKey.Some? && cfg.apiKey.value != ""
  }

  /** The POST sent to the endpoint: URL, bearer key and the JSON body's fields. */
  datatype LlmRequest = LlmRequest(url: string, apiKey: string, model: string, messages: seq<ChatMessage>, temperature: real)

  /** What the endpoint does: answers with a non-OK status, answers OK with the first choice's
      `message.content` (absent or null is `None`), or makes `fetch` or `json()` throw. */
  datatype HttpOutcome = NotOk(status: int) | Ok(content: Option<string>) | Raised

  predicate StartsWithSystem(messages: seq<ChatMessage>) {
    |messages| > 0 && messages[0].role == System
  }

  /** The prepend rule: the list is sent as is when it already opens with a system message,
      otherwise `prompt` is put in front of it. */
  function WithSystemPrompt(messages: seq<ChatMessage>, prompt: string): (r: seq<ChatMessage>)
    ensures StartsWithSystem(r)
    ensures |r| == |messages| + (if StartsWithSystem(messages) then 0 else 1)
    ensures r[|r| - |messages|..] == messages
    ensures !StartsWithSystem(messages) ==> r[0].content == prompt
  {
    if StartsWithSystem(messages) then messages else [ChatMessage(System, prompt)] + messages
  }

  /** Applying the prepend rule twice, with any prompts, is applying it once. */
  lemma WithSystemPromptIdempotent(messages: seq<ChatMessage>, p: string, q: string)
    ensures WithSystemPrompt(WithSystemPrompt(messages, p), q) == WithSystemPrompt(messages, p)
  {
  }

  /** `url.replace(/\/$/, "")`: one trailing slash, if any, is dropped. */
  function StripTrailingSlash(url: string): (r: string)
    ensures r + (if EndsWith(url, "/") then "/" else "") == url
  {
    if EndsWith(url, "/") then url[..|url| - 1] else url
  }

  /** Only one slash goes: a base ending in two slashes keeps one. */
  lemma StripRemovesOneSlash(base: string)
    ensures StripTrailingSlash(base + "//") == base + "/"
  {
    assert EndsWith(base + "//", "/");
    assert (base + "//")[..|base| + 1] == base + "/";
  }

  /** The endpoint the request goes to. */
  function CompletionsUrl(base: string): (r: string)
    ensures EndsWith(r, CompletionsPath)
    ensures r[..|r| - |CompletionsPath|] + (if EndsWith(base, "/") then "/" else "") == base
  {
    assert (StripTrailingSlash(base) + CompletionsPath)[..|StripTrailingSlash(base)|] == StripTrailingSlash(base);
    StripTrailingSlash(base) + CompletionsPath
  }

  function BuildRequest(cfg: LlmConfig, payload: seq<ChatMessage>): LlmRequest
    requires HasApiKey(cfg)
  {
    LlmRequest(CompletionsUrl(cfg.baseUrl.GetOr(DefaultBaseUrl)), cfg.apiKey.value,
               cfg.model.GetOr(DefaultModel), payload, Temperature)
  }

  /** An HTTP outcome carrying a reply: status OK and content that is not blank. */
  predicate Usable(o: HttpOutcome) {
    o.Ok? && o.content.Some? && !AllWhitespace(o.content.value)
  }

  /** `r` is what the wrapper returns for `payload`: the trimmed reply when a key is set and the
      endpoint answers usably, `fallback` in every other case. */
  ghost predicate RepliedWith(cfg: LlmConfig, payload: seq<ChatMessage>, server: LlmRequest -> HttpOutcome,
                              fallback: string, r: string)
  {
    && (HasApiKey(cfg) && Usable(server(BuildRequest(cfg, payload))) ==>
          r == Trim(server(BuildRequest(cfg, payload)).content.value))
    && (!(HasApiKey(cfg) && Usable(server(BuildRequest(cfg, payload)))) ==> r == fallback)
  }

  /** One request/fallback exchange, shared by the reply and title generators. */
  function Complete(cfg: LlmConfig, payload: seq<ChatMessage>, server: LlmRequest -> HttpOutcome,
                    fallback: string): (r: string)
    ensures RepliedWith(cfg, payload, server, fallback, r)
    ensures r != "" <== fallback != ""
    ensures IsTrimmed(r) <== IsTrimmed(fallback)
  {
    if !HasApiKey(cfg) then fallback
    else
      var outcome := server(BuildRequest(cfg, payload));
      if outcome.Ok? && outcome.content.Some? && Trim(outcome.content.value) != "" then
        Trim(outcome.content.value)
      else fallback
  }

  lemma FallbacksTrimmed()
    ensures IsTrimmed(FallbackReply) && IsTrimmed(FallbackTitle)
  {
    assert |FallbackReply| == 65 && FallbackReply[64] == '.';
    assert FallbackReply[0] == "متاسفانه"[0] == 'م';
    assert |FallbackTitle| == 19 && FallbackTitle[0] == 'گ' && FallbackTitle[18] == 'ن';
  }

  /** `generateLLMReply`: never empty, always trimmed, `SYSTEM_PROMPT` prepended unless the list
      already opens with a system message. */
  function GenerateLLMReply(cfg: LlmConfig, messages: seq<ChatMessage>, server: LlmRequest -> HttpOutcome): (r: string)
    ensures RepliedWith(cfg, WithSystemPrompt(messages, SystemPrompt), server, FallbackReply, r)
    ensures r != "" && IsTrimmed(r)
  {
    FallbacksTrimmed();
    Complete(cfg, WithSystemPrompt(messages, SystemPrompt), server, FallbackReply)
  }

  /** Without a key the endpoint is never consulted: any two servers give the same reply. */
  lemma NoKeyNoRequest(cfg: LlmConfig, messages: seq<ChatMessage>, s1: LlmRequest -> HttpOutcome, s2: LlmRequest -> HttpOutcome)
    requires !HasApiKey(cfg)
    ensures GenerateLLMReply(cfg, messages, s1) == GenerateLLMReply(cfg, messages, s2) == FallbackReply
  {
  }

  /** `generateConversationTitle`: the same exchange with the title prompt and the untitled fallback. */
  function GenerateConversationTitle(cfg: LlmConfig, messages: seq<ChatMessage>, server: LlmRequest -> HttpOutcome): (r: string)
    ensures RepliedWith(cfg, WithSystemPrompt(messages, TitlePrompt), server, FallbackTitle, r)
    ensures r != "" && IsTrimmed(r)
  {
    FallbacksTrimmed();
    Complete(cfg, WithSystemPrompt(messages, TitlePrompt), server, FallbackTitle)
  }

  /** The planner's message list. */
  function PlanMessages(topic: string): seq<ChatMessage> {
    [ChatMessage(System, PlannerPrompt), ChatMessage(User, topic)]
  }

  /** `generatePlanWithLLM`: exactly the planner prompt and the topic are sent, because the list
      already opens with a system message, and the wrapper's reply comes back unchanged. */
  function GeneratePlanWithLLM(topic: string, cfg: LlmConfig, server: LlmRequest -> HttpOutcome): (r: string)
    ensures RepliedWith(cfg, [ChatMessage(System, PlannerPrompt), ChatMessage(User, topic)], server, FallbackReply, r)
    ensures r == GenerateLLMReply(cfg, PlanMessages(topic), server)
    ensures r != ""
  {
    var reply := GenerateLLMReply(cfg, PlanMessages(topic), server);
    TrimOfTrimmed(reply);
    Trim(reply)
  }

  /** The summariser's message list: its prompt in front of the conversation, unchanged. */
  function SummaryMessages(messages: seq<ChatMessage>): seq<ChatMessage> {
    [ChatMessage(System, SummaryPrompt)] + messages
  }

  /** `summarizeConversationWithLLM`: the summary prompt followed by the conversation is sent as is. */
  function SummarizeConversationWithLLM(messages: seq<ChatMessage>, cfg: LlmConfig, server: LlmRequest -> HttpOutcome): (r: string)
    ensures RepliedWith(cfg, [ChatMessage(System, SummaryPrompt)] + messages, server, FallbackReply, r)
    ensures r != ""
  {
    var reply := GenerateLLMReply(cfg, SummaryMessages(messages), server);
    TrimOfTrimmed(reply);
    Trim(reply)
  }
}
