/** The agent loop (src/agent/mod.rs): the model proposes, the policy decides,
    the tool runs and the transcript grows. The world outside the loop (the
    model, the clock, the budget, the people asked, the tools) answers through
    `World`, one answer per question asked. */
module Agent {
  import opened Common
  import opened Llm
  import opened Policy
  import Approvals

  datatype ToolOutput = Output(text: string) | ToolError(message: string)

  datatype ApprovalAnswer = Answered(outcome: Approvals.Outcome) | NotAsked(error: string)

  datatype World = World(
    timeLeft: nat -> bool,           // by iteration
    admitted: nat -> bool,           // by iteration: the tenant's budget
    model: nat -> Reply,             // by iteration
    approver: nat -> ApprovalAnswer, // by tool call
    tool: nat -> ToolOutput)         // by tool call: what the model will see of its output

  datatype Config = Config(
    policy: Policy,
    profile: string,
    allowedTools: seq<string>,
    maxIterations: nat,
    maxTokens: Option<nat>,
    maxCost: Option<real>,
    pricing: Option<Pricing>,
    stripThink: string -> string)

  /** A tool call as recorded: what was decided and whether the tool ran. */
  datatype Event = Event(tool: string, decision: Decision, approval: Option<ApprovalAnswer>, executed: bool)

  datatype RunState = RunState(
    iterations: nat,
    inputTokens: nat,
    outputTokens: nat,
    cost: Option<real>,
    tainted: bool,
    readPrivate: bool,
    messages: seq<Message>,
    log: seq<Event>)

  datatype RunEnd = Answer(text: string) | Stopped(why: string)

  predicate ToolAllowed(c: Config, name: string) {
    c.allowedTools == [] || name in c.allowedTools
  }

  // ----- one tool call ------------------------------------------------------------------

  function DecisionFor(c: Config, s: RunState, tool: string): Decision {
    if ToolAllowed(c, tool) then Evaluate(c.policy, tool, c.profile, s.tainted, s.readPrivate)
    else Denied("tool not available in profile '" + c.profile + "'")
  }

  /** Why the call may not run, or None. */
  function Refusal(d: Decision, answer: ApprovalAnswer): Option<string> {
    match d
    case Allowed => None
    case Denied(reason) => Some("denied by policy: " + reason)
    case NeedsApproval(_) =>
      match answer
      case NotAsked(e) => Some("approval could not be requested: " + e)
      case Answered(ApprovedBy(_)) => None
      case Answered(DeniedBy(who, note)) =>
        Some("a person (" + who + ") refused this action" + (if note.Some? then ": " + note.value else ""))
      case Answered(TimedOut) => Some("nobody approved this action in time")
  }

  function AfterCall(c: Config, w: World, s: RunState, tool: string): RunState {
    var k := |s.log|;
    var d := DecisionFor(c, s, tool);
    var runs := Refusal(d, w.approver(k)) == None;
    s.(tainted := s.tainted || (runs && Taints(c.policy, tool)),
       readPrivate := s.readPrivate || (runs && ReadsPrivate(c.policy, tool)),
       log := s.log + [Event(tool, d, if d.NeedsApproval? then Some(w.approver(k)) else None, runs)])
  }

  function ResultText(c: Config, w: World, s: RunState, tool: string): string {
    var refusal := Refusal(DecisionFor(c, s, tool), w.approver(|s.log|));
    if refusal.Some? then "Error: " + refusal.value
    else match w.tool(|s.log|)
         case Output(text) => text
         case ToolError(m) => "Error: " + m
  }

  /** The state after the calls of one reply, one result message for each. */
  function AfterCalls(c: Config, w: World, s: RunState, calls: seq<ToolCall>): RunState
    decreases |calls|
  {
    if calls == [] then s
    else
      var before := AfterCalls(c, w, s, calls[..|calls| - 1]);
      var call := calls[|calls| - 1];
      AfterCall(c, w, before, call.name).(
        messages := before.messages + [ToolResult(call.id, ResultText(c, w, before, call.name))])
  }

  // ----- one iteration ------------------------------------------------------------------

  function Accounted(c: Config, s: RunState, r: ChatResponse): RunState {
    if r.usage == None then s
    else
      var cost := CostOf(r, c.pricing);
      s.(inputTokens := s.inputTokens + r.usage.value.inputTokens,
         outputTokens := s.outputTokens + r.usage.value.outputTokens,
         cost := if cost.Some? then Some(s.cost.GetOr(0.0) + cost.value) else s.cost)
  }

  predicate OverBudget(c: Config, s: RunState) {
    || (c.maxTokens.Some? && s.inputTokens + s.outputTokens > c.maxTokens.value)
    || (c.maxCost.Some? && s.cost.Some? && s.cost.value > c.maxCost.value)
  }

  /** The end of the iteration: another one, or the end of the run. */
  datatype Turn = Turn(state: RunState, end: Option<RunEnd>)

  /** The reply's calls join the transcript. */
  function Asked(c: Config, s: RunState, r: ChatResponse): RunState {
    s.(messages := s.messages + [AssistantWithTools(c.stripThink(r.content), r.toolCalls)])
  }

  function OnReply(c: Config, w: World, s: RunState, r: ChatResponse): Turn {
    var s1 := Accounted(c, s, r);
    if OverBudget(c, s1) then Turn(s1, Some(Stopped("budget exceeded")))
    else if r.toolCalls == [] then Turn(s1, Some(Answer(c.stripThink(r.content))))
    else Turn(AfterCalls(c, w, Asked(c, s1, r), r.toolCalls), None)
  }

  function Iterate(c: Config, w: World, s: RunState, iteration: nat): Turn {
    var s0 := s.(iterations := iteration + 1);
    if !w.timeLeft(iteration) then Turn(s0, Some(Stopped("run time limit reached")))
    else if !w.admitted(iteration) then Turn(s0, Some(Stopped("limit reached")))
    else match w.model(iteration)
      case ReplyError(m) => Turn(s0, Some(Stopped(m)))
      case Reply(r) => OnReply(c, w, s0, r)
  }

  function Started(systemPrompt: string, task: string): RunState {
    RunState(0, 0, 0, None, false, false, [SystemMessage(systemPrompt), UserMessage(task)], [])
  }

  /** The rest of the run, from before iteration `i`. */
  function RunFrom(c: Config, w: World, s: RunState, i: nat): Turn
    decreases c.maxIterations - i
  {
    if i >= c.maxIterations then Turn(s, Some(Stopped("exceeded max_iterations")))
    else
      var turn := Iterate(c, w, s, i);
      if turn.end.Some? then turn else RunFrom(c, w, turn.state, i + 1)
  }

  // ----- the loop, changing the run's state in place --------------------------------------

  class Run {
    const c: Config
    const w: World
    var iterations: nat
    var inputTokens: nat
    var outputTokens: nat
    var cost: Option<real>
    var tainted: bool
    var readPrivate: bool
    var messages: seq<Message>
    var log: seq<Event>

    function State(): RunState
      reads this
    {
      RunState(iterations, inputTokens, outputTokens, cost, tainted, readPrivate, messages, log)
    }

    constructor (c: Config, w: World, systemPrompt: string, task: string)
      ensures this.c == c && this.w == w && State() == Started(systemPrompt, task)
    {
      this.c, this.w := c, w;
      iterations, inputTokens, outputTokens, cost := 0, 0, 0, None;
      tainted, readPrivate := false, false;
      messages, log := [SystemMessage(systemPrompt), UserMessage(task)], [];
    }

    method Account(r: ChatResponse)
      modifies this
      ensures State() == Accounted(c, old(State()), r)
    {
      if r.usage.Some? {
        inputTokens := inputTokens + r.usage.value.inputTokens;
        outputTokens := outputTokens + r.usage.value.outputTokens;
        var price := CostOf(r, c.pricing);
        if price.Some? {
          cost := Some(cost.GetOr(0.0) + price.value);
        }
      }
    }

    /** Policy check, optional approval, execution and recording of one call. */
    method HandleToolCall(call: ToolCall) returns (text: string)
      modifies this
      ensures State() == AfterCall(c, w, old(State()), call.name)
      ensures text == ResultText(c, w, old(State()), call.name)
    {
      var k := |log|;
      var decision := DecisionFor(c, State(), call.name);
      var approval := None;
      if decision.NeedsApproval? {
        approval := Some(w.approver(k));
      }
      var refusal := Refusal(decision, w.approver(k));
      if refusal.Some? {
        text := "Error: " + refusal.value;
      } else {
        match w.tool(k) {
          case Output(t) => text := t;
          case ToolError(m) => text := "Error: " + m;
        }
        // Whatever the tool returned may carry someone else's instructions.
        if Taints(c.policy, call.name) { tainted := true; }
        if ReadsPrivate(c.policy, call.name) { readPrivate := true; }
      }
      log := log + [Event(call.name, decision, approval, refusal == None)];
    }

    /** The calls of one reply, each answered in the transcript. */
    method HandleCalls(calls: seq<ToolCall>)
      modifies this
      ensures State() == AfterCalls(c, w, old(State()), calls)
    {
      for j := 0 to |calls|
        invariant State() == AfterCalls(c, w, old(State()), calls[..j])
      {
        assert calls[..j + 1][..j] == calls[..j];
        var text := HandleToolCall(calls[j]);
        messages := messages + [ToolResult(calls[j].id, text)];
      }
      assert calls[..|calls|] == calls;
    }

    method Iteration(i: nat) returns (end: Option<RunEnd>)
      modifies this
      ensures Turn(State(), end) == Iterate(c, w, old(State()), i)
    {
      iterations := i + 1;
      if !w.timeLeft(i) { return Some(Stopped("run time limit reached")); }
      if !w.admitted(i) { return Some(Stopped("limit reached")); }
      var reply := w.model(i);
      if reply.ReplyError? { return Some(Stopped(reply.message)); }
      var r := reply.response;
      Account(r);
      if OverBudget(c, State()) { return Some(Stopped("budget exceeded")); }
      if r.toolCalls == [] { return Some(Answer(c.stripThink(r.content))); }
      messages := messages + [AssistantWithTools(c.stripThink(r.content), r.toolCalls)];
      HandleCalls(r.toolCalls);
      end := None;
    }

    method RunLoop() returns (end: RunEnd)
      modifies this
      ensures Turn(State(), Some(end)) == RunFrom(c, w, old(State()), 0)
    {
      for i := 0 to c.maxIterations
        invariant RunFrom(c, w, State(), i) == RunFrom(c, w, old(State()), 0)
      {
        var ended := Iteration(i);
        if ended.Some? { return ended.value; }
      }
      end := Stopped("exceeded max_iterations");
    }
  }
}
