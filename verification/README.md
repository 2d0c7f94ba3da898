# Ario-AI message core, modelled in Dafny

Ario-AI is a Persian-language assistant. Its web chat and Telegram bot hand user messages to a small TypeScript core. This project models that core and proves properties of the model. The modelled parts are:

- the slash-command tools `/calc`, `/summarize` and `/plan`: recognising a command and producing each tool's reply;
- the keyword router, which picks one of five domain agents, and the five agents' message builders;
- the LLM wrapper: the system-prompt rule, the endpoint URL, and the fallback on a missing key, an HTTP error, a thrown error or an empty reply;
- the echo message handler (`handleUserMessage`);
- the two memory queries, which read the last fifteen messages and the full history of a user;
- `POST /api/chat`: validation, defaults, the session cookie and status codes;
- `GET /api/conversations`: the ten newest conversations, each with a display title;
- the fine-tuning dataset cleaner and exporter scripts.

All modules are pure functions over immutable values. The following are parameters of the functions that need them:

- the LLM endpoint: `LlmRequest -> HttpOutcome`;
- the arithmetic evaluator behind `/calc`: `string -> EvalOutcome`;
- the chat route's message handler: `HandlerRequest -> Result<HandlerReply, Thrown>`;
- the clock and the random session suffix;
- the environment variables.

Database tables are sequences read in ascending `createdAt` order:

- a `where` clause is `Seqs.Filter`;
- a descending read is `Seqs.Reverse`;
- `take` is `Seqs.Take`.

JavaScript string semantics are written out in `Text`:

- `trim` and the regex class `\s` use the ECMAScript white-space set;
- `toLowerCase` lowers ASCII letters only;
- `.length` counts UTF-16 code units;
- `split(" ")`/`join(" ")` are modelled, and so is decimal rendering of a number.

Modules, in dependency order:

- `Wrappers`: `Option` (null/undefined) and `Result` (return or throw).
- `Seqs`: filter, reverse, take and filter-map over sequences.
- `Text`: the JavaScript string operations above.
- `ChatTypes`: roles, chat messages and channels.
- `Llm`: the LLM wrapper.
- `Router`: the keyword router.
- `Agents`: the five domain agents.
- `Tools`: the slash-command tools.
- `Conversation`: the echo message handler.
- `Memory`: the two memory queries.
- `ConversationsRoute`: `GET /api/conversations`.
- `ChatRoute`: `POST /api/chat`.
- `CleanDataset`: the dataset cleaner.
- `ExportDataset`: the dataset exporter.

Two behaviours of the code are worth stating up front:

- `runSummarizeTool` and `runPlanTool` each have an apology branch for a failed model call. It can never run, because `generateLLMReply` catches every error and returns its fallback text. A failed `/summarize` therefore shows the summary header followed by the fallback reply (`Tools.SummaryOfFailedCall`).
- The message handler in `src/core/conversation.ts` is an echo stub. It does not dispatch to the tools or the agents, and the code has no identity resolver, conversation resolver, tone or response-mode fallback, or title bootstrapper.

## Model

| member | source | states |
|---|---|---|
| Tools.ToolNamed | src/core/tools.ts:19-33 | exactly `calc`, `summarize` and `plan` name a tool, each its own |
| Tools.DetectToolInvocation | src/core/tools.ts:11-34 | an invocation is found iff the trimmed message starts with `/` and the lower-cased text between the slash and the first U+0020 names a tool; the arguments are everything after that space, trimmed |
| Tools.DetectInTrimmed | src/core/tools.ts:14-33 | the same recognition on an already trimmed message; arguments are always trimmed |
| Tools.DetectIgnoresSurroundingWhitespace | src/core/tools.ts:12 | white space around a message never changes whether or how it is recognised |
| Tools.DetectComposed | src/core/tools.ts:16-31 | round trip: `/name args`, with a known name without spaces and trimmed non-empty arguments, is recognised as that tool with exactly those arguments, whatever spaces they contain |
| Tools.DetectWithoutSpace | src/core/tools.ts:16-19 | a command with no U+0020 is named by all of its text after the slash and has empty arguments |
| Tools.TabDoesNotSeparate | src/core/tools.ts:16 | `/calc<TAB>2+2` is not a tool call, because only U+0020 separates the command |
| Tools.NewlineDoesNotSeparate | src/core/tools.ts:16 | `/calc<LF>2+2` is not a tool call either |
| Tools.UpperCaseCommand | src/core/tools.ts:19 | `/CALC 2+2` is the calc tool, because the name is lower-cased |
| Tools.UnknownCommands | src/core/tools.ts:33 | a bare `/` and `/foo` are not tool calls |
| Tools.CalcDetected | src/core/tools.ts:11-23 | `/calc 3*(2+2)` is the calc tool with argument `3*(2+2)` |
| Tools.RunCalcTool | src/core/tools.ts:56-79 | a blank argument gets the usage text; a disallowed character gets the rejection; otherwise the evaluator's outcome on the trimmed text gives the result line, the no-result text (non-finite or non-number) or the failure text (thrown) |
| Tools.CalcGateIgnoresEvaluator | src/core/tools.ts:62-65 | an expression failing the safety pattern is never evaluated: every evaluator gives the same reply |
| Tools.CalcSeesTrimmedExpression | src/core/tools.ts:57-68 | the evaluator sees only the trimmed argument |
| Tools.CalcFinite | src/core/tools.ts:67-75 | a trimmed safe expression with a finite result is answered with the result prefix followed by the result text |
| Tools.CalcReplied | src/core/tools.ts:40-75 | end to end: with an evaluator giving 12, `runTool` for `calc 3*(2+2)` replies with the prefix and `12` |
| Tools.SafeExample | src/core/tools.ts:62 | `3*(2+2)` is already trimmed and matches the safety pattern |
| Tools.RunSummarizeTool | src/core/tools.ts:81-93 | an empty conversation gets the fixed text; otherwise the header is followed by the model's trimmed summary of the summariser prompt plus the whole conversation, or by the fallback |
| Tools.EmptyHistoryNeverSummarized | src/core/tools.ts:82-84 | an empty conversation never reaches the model |
| Tools.SummaryOfFailedCall | src/core/tools.ts:86-92 | with no key or an unusable answer, the reply is the header followed by the wrapper's fallback, never the tool's own apology |
| Tools.RunPlanTool | src/core/tools.ts:95-107 | a blank topic gets the usage text; otherwise the reply is the model's answer to exactly the planner prompt and the untrimmed topic |
| Tools.RunTool | src/core/tools.ts:40-54 | each tool name dispatches to its runner, and every reply is non-empty |
| Router.FirstMatch | src/core/agents/router.ts:6-58 | the chosen rule's keywords occur and no earlier rule's do, so the first matching rule wins; nothing is returned iff no rule's keywords occur |
| Router.FirstMatchOverRules | src/core/agents/router.ts:6-58 | walking the rule table is the five-step if-chain in priority order |
| Router.DetectAgent | src/core/agents/router.ts:3-59 | each agent is chosen iff one of its keywords occurs in the lower-cased text and no keyword of a higher-priority agent does; text with no keyword goes to `startup` |
| Router.MarketingKeywordShadowed | src/core/agents/router.ts:6-37 | a message containing `بازاریابی` always goes to `startup`, because it contains the startup keyword `بازار` |
| Router.AiInsideWordsIsTech | src/core/agents/router.ts:17-27 | `ai` anywhere in the text, even inside a word, routes to `tech` when no startup keyword occurs |
| Router.EmailIsTech | src/core/agents/router.ts:22 | `email` goes to `tech` |
| Router.SaidIsTech | src/core/agents/router.ts:3-27 | `SAID` goes to `tech` after lower-casing |
| Router.UpperCaseKeywords | src/core/agents/router.ts:4-8 | `MVP` goes to `startup` |
| Router.StartupBeatsTech | src/core/agents/router.ts:6-27 | `devops mvp` goes to `startup`: priority decides, not position |
| Router.EmptyTextIsStartup | src/core/agents/router.ts:58 | the empty text goes to `startup` |
| Router.SwotIsBusiness | src/core/agents/router.ts:39-46 | `SWOT` goes to `business` |
| Agents.AgentMessages | src/core/agents/startup.ts:19-23 | an agent sends its persona, a memory line exactly when memory is present and non-empty, and the untrimmed topic last as the user message |
| Agents.AgentPayloadSentAsIs | src/core/llm.ts:93-96 | an agent's list opens with a system message, so the default system prompt is never added |
| Agents.HandleAgent | src/core/agents/startup.ts:18-26 | an agent's reply is the wrapper's reply to exactly its list; the final trim changes nothing |
| Agents.HandleStartupAgent | src/core/agents/startup.ts:18-26 | the startup agent answers its persona, memory line and topic |
| Agents.HandleTechAgent | src/core/agents/tech.ts:15-23 | the tech agent answers its persona, memory line and topic |
| Agents.HandleMarketingAgent | src/core/agents/marketing.ts:15-23 | the marketing agent answers its persona, memory line and topic |
| Agents.HandleBusinessAgent | src/core/agents/business.ts:15-23 | the business agent answers its persona, memory line and topic |
| Agents.HandleContentAgent | src/core/agents/content.ts:15-23 | the content agent answers its persona, memory line and topic |
| Llm.WithSystemPrompt | src/core/llm.ts:93-96 | the result opens with a system message; the list is unchanged if it already did, otherwise the prompt is put in front |
| Llm.WithSystemPromptIdempotent | src/core/llm.ts:93-96 | applying the prepend rule twice is applying it once |
| Llm.StripTrailingSlash | src/core/llm.ts:98 | putting back the dropped slash, if any, restores the base URL |
| Llm.StripRemovesOneSlash | src/core/llm.ts:98 | only one trailing slash is dropped: a base ending in `//` keeps one |
| Llm.CompletionsUrl | src/core/llm.ts:98 | the URL ends in `/chat/completions`, and what precedes it is the base with one trailing slash dropped when there is one, and the whole base otherwise |
| Llm.Complete | src/core/llm.ts:87-127 | the trimmed content when a key is set and the endpoint answers OK with non-blank content; otherwise the fallback |
| Llm.GenerateLLMReply | src/core/llm.ts:76-128 | the reply to the list with the system prompt rule applied, or the fallback reply; never empty, always trimmed |
| Llm.NoKeyNoRequest | src/core/llm.ts:87-90 | without a key the endpoint is never consulted |
| Llm.FallbacksTrimmed | src/core/llm.ts:77-78 | the fallback reply and the fallback title are non-empty and trimmed |
| Llm.GenerateConversationTitle | src/core/llm.ts:130-182 | the same exchange with the title prompt and the untitled fallback; never empty, always trimmed |
| Llm.GeneratePlanWithLLM | src/core/llm.ts:184-217 | exactly the planner prompt and the topic are sent; the reply comes back unchanged by the final trim |
| Llm.SummarizeConversationWithLLM | src/core/llm.ts:219-240 | the summariser prompt followed by the conversation is sent as is; the reply is never empty |
| Conversation.Sanitize | src/core/conversation.ts:12 | the result is trimmed; it is empty iff the message is all white space; trimmed text is unchanged |
| Conversation.HandleUserMessage | src/core/conversation.ts:14-27 | fails with `Message cannot be empty` iff the message is blank; otherwise the reply is the echo prefix followed by the trimmed message |
| Conversation.EchoRecoversMessage | src/core/conversation.ts:17-24 | dropping the prefix recovers the message, apart from surrounding white space |
| Conversation.HandleIgnoresSurroundingWhitespace | src/core/conversation.ts:17 | trimming the message first changes nothing |
| Conversation.HandleIgnoresSender | src/core/conversation.ts:14-27 | the channel and the sender do not affect the outcome |
| Memory.OwnedBy | src/core/memory/context.ts:15-16 | exactly the user's messages, in table order, each as many times as it is stored |
| Memory.OwnedChronological | src/core/memory/messages.ts:14-16 | the user's messages stay in time order |
| Memory.ContextWindow | src/core/memory/context.ts:15-23 | reading newest first, taking fifteen and reversing gives the last min(15, n) of the user's messages, oldest first |
| Memory.ConversationContext | src/core/memory/context.ts:12-28 | the context is those messages with the role mapped and the content unchanged |
| Memory.AsChatMessage | src/core/memory/context.ts:7-10 | `USER` becomes `user` and `ASSISTANT` becomes `assistant`; the content is copied |
| Memory.ContextMostRecent | src/core/memory/context.ts:15-23 | no message left out is newer than one taken, and the window runs oldest first |
| Memory.ShortHistoryWhole | src/core/memory/context.ts:18 | with at most fifteen messages, the window is the whole history |
| Memory.GetMessageHistory | src/core/memory/messages.ts:11-31 | the history has one entry per user message, in order, with id, content and time copied and the role mapped |
| Memory.HistoryExactlyOwned | src/core/memory/messages.ts:14-30 | every message of the user appears in the history, and every entry comes from one |
| Memory.HistoryAscending | src/core/memory/messages.ts:16 | the history runs in ascending `createdAt` order |
| Memory.ContextIsHistoryTail | src/core/memory/context.ts:12-28 | the context is the tail of the history: the same contents and roles |
| ConversationsRoute.FindUserByClientId | app/api/conversations/route.ts:11-13 | a user with that client id is found iff one exists |
| ConversationsRoute.FirstMessage | app/api/conversations/route.ts:24-27 | the conversation's earliest message, or none when it has no messages |
| ConversationsRoute.DisplayTitle | app/api/conversations/route.ts:34 | the stored title wins, even when empty; otherwise the longest prefix of the first message that fits in forty UTF-16 units; otherwise the untitled text |
| ConversationsRoute.NewestOwned | app/api/conversations/route.ts:19-22 | the user's last min(10, n) conversations, newest first |
| ConversationsRoute.ListConversations | app/api/conversations/route.ts:4-38 | empty for a missing or empty header or an unknown client; otherwise one item per listed conversation, with id, time and display title |
| ConversationsRoute.NewestAreOwned | app/api/conversations/route.ts:20 | every conversation picked belongs to the user |
| ConversationsRoute.ListedOwned | app/api/conversations/route.ts:19-35 | every listed item is one of the caller's conversations |
| ConversationsRoute.NewestDescending | app/api/conversations/route.ts:21 | the picked conversations run newest first |
| ConversationsRoute.ListedNewestFirst | app/api/conversations/route.ts:21-35 | the list runs newest first |
| ConversationsRoute.FewConversationsAllListed | app/api/conversations/route.ts:22 | a caller with at most ten conversations sees all of them |
| ConversationsRoute.TitleFallbacks | app/api/conversations/route.ts:34 | an untitled conversation without messages shows the untitled text; a short first message is shown whole |
| ChatRoute.OrDefault | app/api/chat/route.ts:68-69 | absent and empty both give the default |
| ChatRoute.NewSessionId | app/api/chat/route.ts:19 | a new session id starts with `web_` |
| ChatRoute.GetOrCreateSessionId | app/api/chat/route.ts:10-21 | a cookie with a non-empty value is reused; otherwise a new id is made |
| ChatRoute.SessionCookieReuse | app/api/chat/route.ts:14-20 | a non-empty cookie value is reused; without a cookie the id is a `web_` id |
| ChatRoute.HandlerRequestFor | app/api/chat/route.ts:68-85 | the handler gets the web channel, the trimmed message, the client id, the conversation id, and the tone and mode with their defaults |
| ChatRoute.ServerError | app/api/chat/route.ts:104-116 | status 500 with the fixed text; details only in development: the error's message, or `Unknown error` for a non-error |
| ChatRoute.SessionCookie | app/api/chat/route.ts:95-100 | the cookie is named `ario_session_id` and is http-only, `lax` and a year long; it is secure iff in production |
| ChatRoute.Answer | app/api/chat/route.ts:76-103 | a handler failure is a 500; a success is a 200 with the reply, and a new session cookie exactly when the request had none |
| ChatRoute.Post | app/api/chat/route.ts:52-118 | a body that fails to parse is a 500; an absent or blank message is a 400 with the fixed text; otherwise the answer to the handler's outcome |
| ChatRoute.RejectedNeverHandled | app/api/chat/route.ts:60-66 | a rejected message never reaches the handler and gets status 400 |
| ChatRoute.SurroundingWhitespaceIrrelevant | app/api/chat/route.ts:57 | payloads that differ only in white space around the message give the same response |
| ChatRoute.StatusCodes | app/api/chat/route.ts:52-118 | the status is 200, 400 or 500; only 200 carries a reply; a cookie is set only on 200 when the request had none |
| ChatRoute.EchoHandler | src/core/conversation.ts:14-27 | the current handler succeeds iff the message is not blank and returns no conversation id |
| ChatRoute.EchoEndToEnd | app/api/chat/route.ts:57-90 | with the current handler, every accepted message gets a 200 echoing its trimmed text; the handler's own emptiness check can never fire |
| CleanDataset.ReplaceArabicLetters | scripts/clean-finetune-dataset.ts:22 | every Arabic yeh becomes the Persian yeh U+06CC and every Arabic kaf the Persian kaf U+06A9, in place; every other character is kept in place |
| CleanDataset.ReplaceVisible | scripts/clean-finetune-dataset.ts:22 | the replacement keeps the content: replacing and then dropping white space equals dropping white space and then replacing |
| CleanDataset.CollapseWhitespace | scripts/clean-finetune-dataset.ts:23 | the result is empty iff the input is; a leading character that is not white space is kept; the characters that are not white space are kept, all of them and in order |
| CleanDataset.CollapseByCharacter | scripts/clean-finetune-dataset.ts:23 | collapsing equals the character-by-character rule on every input: a character that is not white space is copied, the first character of a white-space run becomes one space, and the rest of the run is dropped |
| CleanDataset.SpaceRunsAfterSpace | scripts/clean-finetune-dataset.ts:23 | inside a white-space run, reading on is the same as skipping the rest of the run |
| CleanDataset.CollapseChars | scripts/clean-finetune-dataset.ts:23 | collapsing introduces no character except the space |
| CleanDataset.CollapseResultSingleSpaced | scripts/clean-finetune-dataset.ts:23 | collapsed text has only single plain spaces as white space |
| CleanDataset.CollapseSingleSpaced | scripts/clean-finetune-dataset.ts:23 | single-spaced text is unchanged by collapsing |
| CleanDataset.RemoveFirstEmoji | scripts/clean-finetune-dataset.ts:18-24 | only the first emoji of the class is deleted, and everything else stays in place |
| CleanDataset.RemoveFirstEmojiCount | scripts/clean-finetune-dataset.ts:24 | removal lowers the emoji count by one exactly when there was an emoji |
| CleanDataset.NormalizeString | scripts/clean-finetune-dataset.ts:20-26 | the characters of the result that are not white space are exactly those of the input, with the Persian letters in place of the Arabic ones and the first emoji removed; the result has no Arabic yeh or kaf, no white space but the plain space, and is no longer than the input |
| CleanDataset.NormalizedContent | scripts/clean-finetune-dataset.ts:22-24 | through all four steps the content survives: only white space and the first emoji are lost, and yeh and kaf are replaced |
| CleanDataset.RemoveFirstEmojiCons | scripts/clean-finetune-dataset.ts:18-24 | read from the front, a leading emoji is the one deleted; otherwise the first character stays and removal goes on in the rest |
| CleanDataset.RemoveFirstEmojiVisible | scripts/clean-finetune-dataset.ts:23-24 | deleting the first emoji commutes with dropping white space |
| Text.VisibleTrim | scripts/clean-finetune-dataset.ts:23 | `trim` removes white space only: the content is unchanged |
| CleanDataset.NormalizeText | scripts/clean-finetune-dataset.ts:21 | an absent text normalises to the empty text |
| CleanDataset.NormalizeClean | scripts/clean-finetune-dataset.ts:20-26 | text that is already clean is unchanged |
| CleanDataset.NormalizeLeadingEmoji | scripts/clean-finetune-dataset.ts:23-24 | a leading emoji is deleted after trimming, so what follows it is not trimmed again |
| CleanDataset.NormalizeLeadingSpace | scripts/clean-finetune-dataset.ts:23 | a space in front of clean text is trimmed away |
| CleanDataset.NormalizeNotIdempotent | scripts/clean-finetune-dataset.ts:23-24 | normalising is not idempotent: an emoji followed by ` a` gives ` a`, which normalises to `a` |
| CleanDataset.SecondEmojiSurvives | scripts/clean-finetune-dataset.ts:18-24 | without the `g` flag a second emoji survives |
| CleanDataset.RemoveInvalidMessages | scripts/clean-finetune-dataset.ts:28-39 | exactly the valid messages are kept, in order and each as many times as it occurs; an invalid message is never kept. Valid means content present and non-empty, normalised length from 3 to 4000 UTF-16 units, not a bare greeting |
| CleanDataset.AllValidKept | scripts/clean-finetune-dataset.ts:31-38 | a list whose every message is valid passes the filter unchanged |
| CleanDataset.RepeatedMessagesKept | scripts/clean-finetune-dataset.ts:31 | a valid message that occurs twice is kept twice: the filter does not deduplicate |
| CleanDataset.MapRole | scripts/clean-finetune-dataset.ts:43 | `USER` and `ASSISTANT` are lower-cased; any other role is kept |
| CleanDataset.FilterConversation | scripts/clean-finetune-dataset.ts:41-56 | nothing when fewer than two messages survive; otherwise the metadata is copied and the surviving messages are renamed and normalised, in order |
| CleanDataset.FilteredContentsValid | scripts/clean-finetune-dataset.ts:32-45 | every message of a kept conversation has content of 3 to 4000 units that is not a greeting and has no Arabic yeh or kaf |
| CleanDataset.JsonlExtension | scripts/clean-finetune-dataset.ts:58-60 | a name ending in `.jsonl` is JSONL; one ending in `.json` is not |
| CleanDataset.EvalConversation | scripts/clean-finetune-dataset.ts:79-88 | an evaluation item becomes `eval-<index>`, owned by `evaluation-bot`, holding the question as the user message and the answer as the assistant message |
| CleanDataset.EvalConversations | scripts/clean-finetune-dataset.ts:78-88 | one conversation per item, in order |
| CleanDataset.EvalIdsDistinct | scripts/clean-finetune-dataset.ts:80 | the evaluation conversations carry pairwise distinct ids |
| CleanDataset.EvalSurvivesIff | scripts/clean-finetune-dataset.ts:41-89 | an evaluation conversation survives iff both its question and its answer are valid |
| CleanDataset.CleanAll | scripts/clean-finetune-dataset.ts:102-108 | every kept conversation is the filtered form of an input, and every input that passes the filter is kept |
| CleanDataset.CleanOne | scripts/clean-finetune-dataset.ts:102-108 | one conversation yields its filtered form, or nothing when it fails the filter |
| CleanDataset.CleanAppend | scripts/clean-finetune-dataset.ts:102-108 | cleaning a concatenation is concatenating the cleaned parts; with `CleanOne` this fixes the output completely: survivors in input order, one per surviving input |
| Seqs.FilterKeepsAll | scripts/clean-finetune-dataset.ts:31 | a filter that every element passes returns its input unchanged |
| Seqs.FilterMapFaithful | scripts/clean-finetune-dataset.ts:102-108 | keeping the present results of a map keeps exactly those, each from some input |
| Seqs.FilterMapOne | scripts/clean-finetune-dataset.ts:104-107 | one element gives its present result, or nothing |
| Seqs.FilterMapAppend | scripts/clean-finetune-dataset.ts:102-108 | filter-mapping distributes over concatenation, which fixes order and multiplicity |
| ExportDataset.ExportMessage | scripts/export-finetune-dataset.ts:32-40 | the role is `user` exactly for `USER`, otherwise `assistant`; content, source and time are copied |
| ExportDataset.OwnerClientId | scripts/export-finetune-dataset.ts:46 | the client id is present iff there is an owner and the owner has one |
| ExportDataset.RecordOf | scripts/export-finetune-dataset.ts:30-50 | no record for fewer than two messages; otherwise the metadata and every message, in order |
| ExportDataset.RecordsFaithful | scripts/export-finetune-dataset.ts:29-54 | one record per conversation with at least two messages, each taken from such a conversation |
| ExportDataset.Export | scripts/export-finetune-dataset.ts:27-54 | the loop emits exactly the records in order, and the count written equals the number of exportable conversations |
| Text.Trim | src/core/conversation.ts:12 | `trim` removes exactly the white space at both ends: the result is the trimmed infix, and it is empty iff the input is all white space |
| Text.TrimIdempotent | src/core/tools.ts:57 | trimming twice is trimming once |
| Text.JoinSplit | src/core/tools.ts:16-17 | joining the pieces of a split on the same separator restores the text |
| Text.Utf16Prefix | app/api/conversations/route.ts:34 | `slice(0, 40)` is the longest prefix within 40 UTF-16 units, and the whole text when it fits |
| Text.NatToStringInjective | scripts/clean-finetune-dataset.ts:80 | distinct indices render as distinct decimal texts |

## Left out

- Identity resolution, conversation resolution, a tone and response-mode fallback and a title bootstrapper: the code has none of them, so there is nothing to model.
- Database access, `fetch`, `JSON.parse`/`JSON.stringify`, `console` logging, file reading and writing, and the exit code: these are I/O. Tables are sequences, responses are values, and timestamps are integers rather than `toISOString` text.
- `new Function` evaluation of `/calc` expressions: an oracle from the expression text to a finite result (with the text JavaScript prints for it), a non-finite number, a non-number or a throw.
- Tools.RunSummarizeTool, Tools.RunPlanTool: the apology branches for a throwing model call are not modelled, because the wrapper never throws.
- Llm.GenerateLLMReply: a non-string `content` converted with `toString()` is not modelled; content is a string or absent.
- Text.Lower: lowers ASCII letters only. JavaScript also lowers other scripts, and U+0130 becomes two code points; Persian text has no case.
- Text.Utf16Prefix: never splits a surrogate pair, whereas `slice(0, 40)` can leave a lone high surrogate at the cut.
- Every `null` and `undefined` is one `Option.None`. Request bodies and dataset records with fields of the wrong JSON type (for example a numeric `message`, which would make `trim` throw) are not modelled.
- ChatRoute.Post: the handler is a parameter; the current stub ignores the tone, mode, client id and conversation id it is given, and returns no conversation id (`ChatRoute.EchoHandler`).
- `GET /api/chat` and `getCurrentUser`: a read of `getMessageHistory`, which is modelled, behind a find-or-create of the anonymous user. The latter is database I/O.
- `loadDataset`'s choice between JSONL, an evaluation array (detected by an `answer` key on the first item) and a conversation array is not modelled. The evaluation mapping and the per-file results are modelled.
- The cleaner's output writes only the `messages` field of each kept conversation; this is file I/O.
- Ties in `createdAt` order are not modelled: the tables are assumed to be read in one fixed chronological order.
- The prompt texts are shortened to their opening lines; the reply, fallback and error texts are exact.
- The Telegram bot, the web UI, environment validation and the evaluation scripts are outside the modelled core.
