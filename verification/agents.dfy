/**
  The five domain agents. Each sends the model its persona prompt, an optional memory
  line and the user's topic, and returns the trimmed reply; they differ only in the
  persona, so one parametrised builder serves all five entry points.
*/
module Agents {
  import opened Wrappers
  import opened Text
  import opened ChatTypes
  import opened Llm
  import opened Router

  /** The persona prompt of each agent, represented by its opening line. */
  function Persona(kind: AgentKind): string {
    match kind
    case Startup => "You are StartupAgent — متخصص استارتاپ و کسب\U{200C}وکار در ایران."
    case Tech => "You are TechAgent — متخصص فنی برای Next.js، TypeScript، Prisma، دیتابیس، AI/LLM و DevOps."
    case Marketing => "You are MarketingAgent — متخصص مارکتینگ و رشد برای ایران."
    case Business => "You are BusinessAnalystAgent — تحلیل\U{200C}گر داده\U{200C}محور برای بازار ایران."
    case Content => "You are ContentAgent — متخصص تولید و ساختاردهی متن حرفه\U{200C}ای فارسی."
  }

  const MemoryPrefix: string := "Memory: "

  /** `memory ? … : []`: a memory string counts only when it is present and not empty. */
  predicate HasMemory(memory: Option<string>) {
    memory.Some? && memory.value != ""
  }

  function MemoryLine(memory: Option<string>): seq<ChatMessage> {
    if HasMemory(memory) then [ChatMessage(System, MemoryPrefix + memory.value)] else []
  }

  /** The message list every agent sends: persona, the memory line exactly when there is memory,
      and the untrimmed topic as the user message. */
  function AgentMessages(kind: AgentKind, topic: string, memory: Option<string>): (r: seq<ChatMessage>)
    ensures |r| == (if HasMemory(memory) then 3 else 2)
    ensures r[0] == ChatMessage(System, Persona(kind))
    ensures r[|r| - 1] == ChatMessage(User, topic)
    ensures HasMemory(memory) ==> r[1] == ChatMessage(System, MemoryPrefix + memory.value)
    ensures forall i :: 0 <= i < |r| - 1 ==> r[i].role == System
  {
    [ChatMessage(System, Persona(kind))] + MemoryLine(memory) + [ChatMessage(User, topic)]
  }

  /** An agent's list already opens with a system message, so `SYSTEM_PROMPT` is never put in front. */
  lemma AgentPayloadSentAsIs(kind: AgentKind, topic: string, memory: Option<string>)
    ensures WithSystemPrompt(AgentMessages(kind, topic, memory), SystemPrompt) == AgentMessages(kind, topic, memory)
  {
  }

  /** Running an agent: the reply comes from the model's answer to exactly the agent's list; the
      final trim changes nothing because the wrapper's reply is already trimmed. */
  function HandleAgent(kind: AgentKind, topic: string, memory: Option<string>, cfg: LlmConfig,
                       server: LlmRequest -> HttpOutcome): (r: string)
    ensures RepliedWith(cfg, AgentMessages(kind, topic, memory), server, FallbackReply, r)
    ensures r == GenerateLLMReply(cfg, AgentMessages(kind, topic, memory), server)
    ensures r != ""
  {
    var reply := GenerateLLMReply(cfg, AgentMessages(kind, topic, memory), server);
    TrimOfTrimmed(reply);
    Trim(reply)
  }

  /** `handleStartupAgent`. */
  function HandleStartupAgent(topic: string, memory: Option<string>, cfg: LlmConfig,
                              server: LlmRequest -> HttpOutcome): (r: string)
    ensures RepliedWith(cfg, [ChatMessage(System, Persona(Startup))] + MemoryLine(memory) + [ChatMessage(User, topic)],
                        server, FallbackReply, r)
    ensures r != ""
  {
    HandleAgent(Startup, topic, memory, cfg, server)
  }

  /** `handleTechAgent`. */
  function HandleTechAgent(topic: string, memory: Option<string>, cfg: LlmConfig,
                           server: LlmRequest -> HttpOutcome): (r: string)
    ensures RepliedWith(cfg, [ChatMessage(System, Persona(Tech))] + MemoryLine(memory) + [ChatMessage(User, topic)],
                        server, FallbackReply, r)
    ensures r != ""
  {
    HandleAgent(Tech, topic, memory, cfg, server)
  }

  /** `handleMarketingAgent`. */
  function HandleMarketingAgent(topic: string, memory: Option<string>, cfg: LlmConfig,
                                server: LlmRequest -> HttpOutcome): (r: string)
    ensures RepliedWith(cfg, [ChatMessage(System, Persona(Marketing))] + MemoryLine(memory) + [ChatMessage(User, topic)],
                        server, FallbackReply, r)
    ensures r != ""
  {
    HandleAgent(Marketing, topic, memory, cfg, server)
  }

  /** `handleBusinessAgent`. */
  function HandleBusinessAgent(topic: string, memory: Option<string>, cfg: LlmConfig,
                               server: LlmRequest -> HttpOutcome): (r: string)
    ensures RepliedWith(cfg, [ChatMessage(System, Persona(Business))] + MemoryLine(memory) + [ChatMessage(User, topic)],
                        server, FallbackReply, r)
    ensures r != ""
  {
    HandleAgent(Business, topic, memory, cfg, server)
  }

  /** `handleContentAgent`. */
  function HandleContentAgent(topic: string, memory: Option<string>, cfg: LlmConfig,
                              server: LlmRequest -> HttpOutcome): (r: string)
    ensures RepliedWith(cfg, [ChatMessage(System, Persona(Content))] + MemoryLine(memory) + [ChatMessage(User, topic)],
                        server, FallbackReply, r)
    ensures r != ""
  {
    HandleAgent(Content, topic, memory, cfg, server)
  }
}
