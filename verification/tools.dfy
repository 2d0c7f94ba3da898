/**
  The slash-command dispatcher: recognising `/calc`, `/summarize` and `/plan`, and
  producing each tool's reply. The arithmetic evaluator (`new Function`) is an oracle
  from expression text to outcome; the model is reached through the wrapper in `Llm`.
*/
module Tools {
  import opened Wrappers
  import opened Text
  import opened ChatTypes
  import opened Llm

  datatype ToolName = Calc | Summarize | Plan

  datatype ToolInvocation = ToolInvocation(name: ToolName, args: string)

  /** The recognised command names, compared after lower-casing. */
  function ToolNamed(name: string): (r: Option<ToolName>)
    ensures r == Some(Calc) <==> name == "calc"
    ensures r == Some(Summarize) <==> name == "summarize"
    ensures r == Some(Plan) <==> name == "plan"
  {
    if name == "calc" then Some(Calc)
    else if name == "summarize" then Some(Summarize)
    else if name == "plan" then Some(Plan)
    else None
  }

  /** The command token: the trimmed message up to its first space character. */
  function CommandToken(trimmed: string): string {
    Before(trimmed, ' ')
  }

  /** Recognition on an already trimmed message: it must start with `/`; the text up to the first
      space (only U+0020 separates) names the tool, case-insensitively; the arguments are
      everything after that space, trimmed. */
  function DetectInTrimmed(trimmed: string): (r: Option<ToolInvocation>)
    ensures r.Some? <==> StartsWith(trimmed, "/") && ToolNamed(Lower(CommandToken(trimmed)[1..])).Some?
    ensures r.Some? ==> && r.value.name == ToolNamed(Lower(CommandToken(trimmed)[1..])).value
                        && r.value.args == Trim(After(trimmed, ' '))
    ensures r.Some? ==> IsTrimmed(r.value.args)
  {
    if !StartsWith(trimmed, "/") then None
    else
      var parts := Split(trimmed, ' ');
      SplitHeadRest(trimmed, ' ');
      var command := parts[0];
      assert |command| >= 1 by {
        assert trimmed[0] == '/';
      }
      var args := Trim(Join(parts[1..], ' '));
      var name := Lower(command[1..]);
      match ToolNamed(name)
      case Some(tool) => Some(ToolInvocation(tool, args))
      case None => None
  }

  /** `detectToolInvocation`: the message is trimmed, then recognised. */
  function DetectToolInvocation(raw: string): (r: Option<ToolInvocation>)
    ensures r.Some? ==> StartsWith(Trim(raw), "/")
    ensures var t := Trim(raw);
      r.Some? <==> StartsWith(t, "/") && ToolNamed(Lower(CommandToken(t)[1..])).Some?
    ensures var t := Trim(raw);
      r.Some? ==> && r.value.name == ToolNamed(Lower(CommandToken(t)[1..])).value
                  && r.value.args == Trim(After(t, ' '))
    ensures r.Some? ==> IsTrimmed(r.value.args)
  {
    DetectInTrimmed(Trim(raw))
  }

  /** Surrounding white space never matters: the message is trimmed first. */
  lemma DetectIgnoresSurroundingWhitespace(raw: string)
    ensures DetectToolInvocation(raw) == DetectToolInvocation(Trim(raw))
  {
    TrimIdempotent(raw);
  }

  /** Only a space separates the command: after a tab the name runs on, so the command is not
      recognised. */
  lemma TabDoesNotSeparate()
    ensures DetectToolInvocation("/calc\t2+2") == None
  {
    DetectWithoutSpace("/calc\t2+2");
    assert |Lower("calc\t2+2")| == 8;
  }

  /** Nor does a line break. */
  lemma NewlineDoesNotSeparate()
    ensures DetectToolInvocation("/calc\n2+2") == None
  {
    DetectWithoutSpace("/calc\n2+2");
    assert |Lower("calc\n2+2")| == 8;
  }

  /** A trimmed command without a space character names the tool with all of its text after the
      slash, and has no arguments. */
  lemma DetectWithoutSpace(m: string)
    requires IsTrimmed(m) && |m| > 0 && m[0] == '/' && ' ' !in m
    ensures DetectToolInvocation(m).Some? <==> ToolNamed(Lower(m[1..])).Some?
    ensures DetectToolInvocation(m).Some? ==> DetectToolInvocation(m).value.args == ""
  {
    TrimOfTrimmed(m);
    assert m[..|m|] == m;
    BeforeAfterAt(m, ' ', |m|);
    TrimOfTrimmed("");
  }

  lemma LowerCalc()
    ensures Lower("CALC") == "calc" && Lower("calc") == "calc"
  {
    assert Lower("CALC")[0] == 'c' && Lower("CALC")[1] == 'a' && Lower("CALC")[2] == 'l' && Lower("CALC")[3] == 'c';
  }

  /** Round trip: a message composed as `/name args`, with a recognised name without spaces and a
      trimmed, non-empty argument text, is recognised as that tool with exactly that argument text,
      however many spaces the arguments themselves contain. */
  lemma DetectComposed(name: string, args: string)
    requires ' ' !in name && ToolNamed(Lower(name)).Some?
    requires args != "" && IsTrimmed(args)
    ensures DetectToolInvocation(['/'] + name + [' '] + args)
            == Some(ToolInvocation(ToolNamed(Lower(name)).value, args))
  {
    var m := ['/'] + name + [' '] + args;
    ComposedParts(name, args);
    assert DetectToolInvocation(m) == DetectInTrimmed(m);
    assert StartsWith(m, "/") by {
      assert m[0] == '/';
    }
    assert CommandToken(m) == ['/'] + name;
    assert CommandToken(m)[1..] == name;
    TrimOfTrimmed(args);
  }

  /** The composed message is already trimmed, and splits at the space after the name. */
  lemma ComposedParts(name: string, args: string)
    requires ' ' !in name && args != "" && IsTrimmed(args)
    ensures Trim(['/'] + name + [' '] + args) == ['/'] + name + [' '] + args
    ensures Before(['/'] + name + [' '] + args, ' ') == ['/'] + name
    ensures After(['/'] + name + [' '] + args, ' ') == args
  {
    var head := ['/'] + name;
    assert ['/'] + name + [' '] + args == head + [' '] + args;
    ComposedTrimmed(head, args);
    ComposedSplit(head, args);
  }

  lemma ComposedTrimmed(head: string, args: string)
    requires head != [] && head[0] == '/' && args != "" && IsTrimmed(args)
    ensures Trim(head + [' '] + args) == head + [' '] + args
  {
    var m := head + [' '] + args;
    assert m[0] == '/';
    assert m[|m| - 1] == args[|args| - 1];
    TrimOfTrimmed(m);
  }

  lemma ComposedSplit(head: string, args: string)
    requires ' ' !in head
    ensures Before(head + [' '] + args, ' ') == head
    ensures After(head + [' '] + args, ' ') == args
  {
    var m := head + [' '] + args;
    assert m[..|head|] == head;
    assert m[|head|] == ' ';
    assert m[|head| + 1..] == args;
    BeforeAfterAt(m, ' ', |head|);
  }

  /** The command name matches in any letter case. */
  lemma UpperCaseCommand()
    ensures DetectToolInvocation("/CALC 2+2") == Some(ToolInvocation(Calc, "2+2"))
  {
    LowerCalc();
    assert "/CALC 2+2" == ['/'] + "CALC" + [' '] + "2+2";
    DetectComposed("CALC", "2+2");
  }

  /** A bare slash or an unknown name is not a tool. */
  lemma UnknownCommands()
    ensures DetectToolInvocation("/") == None
    ensures DetectToolInvocation("/foo") == None
  {
    DetectWithoutSpace("/");
    DetectWithoutSpace("/foo");
    assert |Lower("foo")| == 3;
  }

  // Replies of the calc tool.
  const CalcUsage: string := "برای استفاده از ابزار /calc بعد از آن یک عبارت ریاضی بنویس، مثلاً:\n/calc 2+2*5"
  const CalcInvalid: string := "عبارت وارد شده نامعتبر است. فقط از اعداد و عملگرهای + - * / و پرانتز استفاده کن."
  const CalcNoResult: string := "نتوانستم نتیجهٔ عددی معتبری از این عبارت به\U{200C}دست بیاورم."
  const CalcFailed: string := "در محاسبهٔ این عبارت خطایی رخ داد. لطفاً آن را ساده\U{200C}تر وارد کن."
  const CalcResultPrefix: string := "نتیجه محاسبه: "

  /** What evaluating the expression gives: a finite number (with the text JavaScript prints for
      it), a non-finite number, a value that is not a number, or an exception. */
  datatype EvalOutcome = Finite(rendered: string) | NonFinite | NonNumeric | Throws

  // One character of the class of digits, the four operators, parentheses, point and white space.
  predicate IsCalcChar(c: char) {
    ('0' <= c <= '9') || c == '+' || c == '-' || c == '*' || c == '/' || c == '(' || c == ')'
    || c == '.' || IsWhitespace(c)
  }

  // The safety pattern of the calc tool: non-empty and made of allowed characters only.
  predicate SafeExpression(e: string) {
    e != [] && forall i :: 0 <= i < |e| ==> IsCalcChar(e[i])
  }

  /** `runCalcTool`: usage for a blank argument, rejection for a disallowed character, and
      otherwise the evaluator's outcome turned into a reply. */
  function RunCalcTool(args: string, evaluate: string -> EvalOutcome): (r: string)
    ensures AllWhitespace(args) ==> r == CalcUsage
    ensures !AllWhitespace(args) && !SafeExpression(Trim(args)) ==> r == CalcInvalid
    ensures SafeExpression(Trim(args)) ==>
      match evaluate(Trim(args))
      case Finite(text) => r == CalcResultPrefix + text
      case NonFinite => r == CalcNoResult
      case NonNumeric => r == CalcNoResult
      case Throws => r == CalcFailed
  {
    var expr := Trim(args);
    if expr == "" then CalcUsage
    else if !SafeExpression(expr) then CalcInvalid
    else
      match evaluate(expr)
      case Finite(text) => CalcResultPrefix + text
      case NonFinite => CalcNoResult
      case NonNumeric => CalcNoResult
      case Throws => CalcFailed
  }

  /** The evaluator is consulted only for a safe expression: for any other argument every
      evaluator gives the same reply. */
  lemma CalcGateIgnoresEvaluator(args: string, e1: string -> EvalOutcome, e2: string -> EvalOutcome)
    requires !SafeExpression(Trim(args))
    ensures RunCalcTool(args, e1) == RunCalcTool(args, e2)
  {
  }

  /** The evaluator sees the trimmed argument and nothing else. */
  lemma CalcSeesTrimmedExpression(args: string, e1: string -> EvalOutcome, e2: string -> EvalOutcome)
    requires e1(Trim(args)) == e2(Trim(args))
    ensures RunCalcTool(args, e1) == RunCalcTool(args, e2)
  {
  }

  // Replies of the summarize and plan tools.
  const NothingToSummarize: string := "هیچ پیامی برای خلاصه\U{200C}سازی در این گفت\U{200C}وگو وجود ندارد."
  const SummaryHeader: string := "خلاصهٔ این گفت\U{200C}وگو:\n\n"
  const PlanUsage: string := "برای استفاده از ابزار /plan بعد از آن یک موضوع مشخص بنویس. مثال:\n/plan ساخت MVP پلتفرم رزرو خدمات"

  /** `runSummarizeTool`: a fixed text for an empty conversation; otherwise the header followed by
      the model's summary of the whole conversation. */
  function RunSummarizeTool(history: seq<ChatMessage>, cfg: LlmConfig, server: LlmRequest -> HttpOutcome): (r: string)
    ensures |history| == 0 ==> r == NothingToSummarize
    ensures |history| > 0 ==>
      && StartsWith(r, SummaryHeader)
      && |r| > |SummaryHeader|
      && RepliedWith(cfg, [ChatMessage(System, SummaryPrompt)] + history, server, FallbackReply, r[|SummaryHeader|..])
  {
    if |history| == 0 then NothingToSummarize
    else
      var summary := SummarizeConversationWithLLM(history, cfg, server);
      assert (SummaryHeader + summary)[|SummaryHeader|..] == summary;
      SummaryHeader + summary
  }

  /** An empty conversation never reaches the model. */
  lemma EmptyHistoryNeverSummarized(cfg: LlmConfig, s1: LlmRequest -> HttpOutcome, s2: LlmRequest -> HttpOutcome)
    ensures RunSummarizeTool([], cfg, s1) == RunSummarizeTool([], cfg, s2) == NothingToSummarize
  {
  }

  /** A failing model does not produce the tool's own apology: the wrapper already replaced the
      failure with its fallback text, which is shown under the summary header. */
  lemma SummaryOfFailedCall(history: seq<ChatMessage>, cfg: LlmConfig, server: LlmRequest -> HttpOutcome)
    requires |history| > 0
    requires !HasApiKey(cfg) || !Usable(server(BuildRequest(cfg, [ChatMessage(System, SummaryPrompt)] + history)))
    ensures RunSummarizeTool(history, cfg, server) == SummaryHeader + FallbackReply
  {
    var r := RunSummarizeTool(history, cfg, server);
    assert r == SummaryHeader + r[|SummaryHeader|..];
  }

  /** `runPlanTool`: usage for a blank topic; otherwise the planner's reply to exactly the planner
      prompt and the topic. */
  function RunPlanTool(args: string, cfg: LlmConfig, server: LlmRequest -> HttpOutcome): (r: string)
    ensures AllWhitespace(args) ==> r == PlanUsage
    ensures !AllWhitespace(args) ==>
      RepliedWith(cfg, [ChatMessage(System, PlannerPrompt), ChatMessage(User, args)], server, FallbackReply, r)
  {
    if Trim(args) == "" then PlanUsage else GeneratePlanWithLLM(args, cfg, server)
  }

  /** `runTool`: every invocation gets a non-empty reply; nothing escapes as an error. */
  function RunTool(invocation: ToolInvocation, history: seq<ChatMessage>, evaluate: string -> EvalOutcome,
                   cfg: LlmConfig, server: LlmRequest -> HttpOutcome): (r: string)
    ensures r != ""
    ensures invocation.name == Calc ==> r == RunCalcTool(invocation.args, evaluate)
    ensures invocation.name == Summarize ==> r == RunSummarizeTool(history, cfg, server)
    ensures invocation.name == Plan ==> r == RunPlanTool(invocation.args, cfg, server)
  {
    match invocation.name
    case Calc => RunCalcTool(invocation.args, evaluate)
    case Summarize => RunSummarizeTool(history, cfg, server)
    case Plan => RunPlanTool(invocation.args, cfg, server)
  }

  /** `/calc 3*(2+2)` is recognised as the calc tool with the expression as its argument. */
  lemma CalcDetected()
    ensures DetectToolInvocation("/calc 3*(2+2)") == Some(ToolInvocation(Calc, "3*(2+2)"))
  {
    LowerCalc();
    assert "/calc 3*(2+2)" == ['/'] + "calc" + [' '] + "3*(2+2)";
    DetectComposed("calc", "3*(2+2)");
  }

  lemma SafeExample()
    ensures SafeExpression("3*(2+2)") && Trim("3*(2+2)") == "3*(2+2)"
  {
    var e := "3*(2+2)";
    assert !IsWhitespace(e[0]) && !IsWhitespace(e[|e| - 1]);
    TrimOfTrimmed(e);
    forall i | 0 <= i < |e|
      ensures IsCalcChar(e[i])
    {
      assert ('0' <= e[i] <= '9') || e[i] == '*' || e[i] == '+' || e[i] == '(' || e[i] == ')';
    }
  }

  /** A trimmed safe expression reaches the evaluator, and a finite result is shown after the prefix. */
  lemma CalcFinite(e: string, text: string, evaluate: string -> EvalOutcome, cfg: LlmConfig, server: LlmRequest -> HttpOutcome)
    requires SafeExpression(e) && Trim(e) == e && evaluate(e) == Finite(text)
    ensures RunTool(ToolInvocation(Calc, e), [], evaluate, cfg, server) == CalcResultPrefix + text
  {
  }

  /** With an evaluator that yields 12 for it, the calc tool replies with the formatted result. */
  lemma CalcReplied(evaluate: string -> EvalOutcome, cfg: LlmConfig, server: LlmRequest -> HttpOutcome)
    requires evaluate("3*(2+2)") == Finite("12")
    ensures RunTool(ToolInvocation(Calc, "3*(2+2)"), [], evaluate, cfg, server) == CalcResultPrefix + "12"
  {
    SafeExample();
    CalcFinite("3*(2+2)", "12", evaluate, cfg, server);
  }
}
