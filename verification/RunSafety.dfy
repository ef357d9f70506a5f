/** What every run of the agent keeps, for any rules, model replies, approver
    answers and tool outputs. */
module RunSafety {
  import opened Common
  import opened Llm
  import opened Policy
  import opened Agent
  import Approvals
  import Transcript

  predicate ByAPerson(e: Event) {
    e.approval.Some? && e.approval.value.Answered? && e.approval.value.outcome.ApprovedBy?
  }

  /** An external-content tool executed among the first `n` calls. */
  predicate ReadOutside(p: Policy, log: seq<Event>, n: nat)
    requires n <= |log|
  {
    exists i :: 0 <= i < n && log[i].executed && MatchesAny(p.taint.sources, log[i].tool)
  }

  predicate ReadInside(p: Policy, log: seq<Event>, n: nat)
    requires n <= |log|
  {
    exists i :: 0 <= i < n && log[i].executed && MatchesAny(p.taint.privateSources, log[i].tool)
  }

  /** Call `j` of the log kept the taint rule: with side effects after external
      content, or sending out after external and private reads, it executed
      only if a person approved it. */
  predicate KeepsTaintRule(p: Policy, log: seq<Event>, j: nat)
    requires j < |log|
  {
    log[j].executed ==>
      && (ReadOutside(p, log, j) && MatchesAny(p.taint.effects, log[j].tool) ==> ByAPerson(log[j]))
      && (ReadOutside(p, log, j) && ReadInside(p, log, j) && MatchesAny(p.taint.egress, log[j].tool) ==> ByAPerson(log[j]))
  }

  /** The flags of the run say exactly what executed so far. */
  ghost predicate FlagsExact(p: Policy, s: RunState) {
    && s.tainted == ReadOutside(p, s.log, |s.log|)
    && s.readPrivate == ReadInside(p, s.log, |s.log|)
  }

  /** Call `j` of the log was decided as the rules and the gates say, in the state
      it came in: a person was asked exactly when they require it, and it
      executed exactly when they allow it, or require it and a person approved. */
  ghost predicate DecidedRightly(c: Config, log: seq<Event>, j: nat)
    requires j < |log|
  {
    var p, tool := c.policy, log[j].tool;
    var tainted, readPrivate := ReadOutside(p, log, j), ReadInside(p, log, j);
    var available := c.allowedTools == [] || tool in c.allowedTools;
    forall e :: RuleSays(p, tool, c.profile, tainted, e) ==>
      var effect := Gate(p, tool, tainted, readPrivate, e);
      && (log[j].approval.Some? <==> available && effect == RequireApproval)
      && (log[j].executed <==> available && (effect == Allow || (effect == RequireApproval && ByAPerson(log[j]))))
  }

  ghost predicate Safe(c: Config, s: RunState) {
    FlagsExact(c.policy, s) && forall j :: 0 <= j < |s.log| ==> DecidedRightly(c, s.log, j)
  }

  /** A recorded call that ran was allowed, or approved by a person. */
  lemma {:induction false} RanOnlyIfPermitted(d: Decision, answer: ApprovalAnswer)
    ensures Refusal(d, answer) == None <==>
      d == Allowed || (d.NeedsApproval? && answer.Answered? && answer.outcome.ApprovedBy?)
  {
  }

  lemma {:induction false} ReadsOfPrefix(p: Policy, log: seq<Event>, e: Event, n: nat)
    requires n <= |log|
    ensures ReadOutside(p, log + [e], n) == ReadOutside(p, log, n)
    ensures ReadInside(p, log + [e], n) == ReadInside(p, log, n)
  {
    forall i | 0 <= i < n
      ensures (log + [e])[i] == log[i]
    {
    }
  }

  /** The new call of a log. */
  lemma {:induction false} NewCallDecided(c: Config, w: World, s: RunState, tool: string, e: Effect)
    requires RuleSays(c.policy, tool, c.profile, s.tainted, e)
    ensures var event := AfterCall(c, w, s, tool).log[|s.log|];
            var effect := Gate(c.policy, tool, s.tainted, s.readPrivate, e);
            var available := c.allowedTools == [] || tool in c.allowedTools;
            && (event.approval.Some? <==> available && effect == RequireApproval)
            && (event.executed <==> available && (effect == Allow || (effect == RequireApproval && ByAPerson(event))))
  {
    EvaluateExactly(c.policy, tool, c.profile, s.tainted, s.readPrivate, e);
    RanOnlyIfPermitted(DecisionFor(c, s, tool), w.approver(|s.log|));
    hide Evaluate, RuleSays, Gate, Refusal, Taints, ReadsPrivate;
  }

  lemma {:induction false} CallKeepsSafe(c: Config, w: World, s: RunState, tool: string)
    requires Safe(c, s)
    ensures Safe(c, AfterCall(c, w, s, tool))
  {
    hide RuleSays, Gate, Refusal, MatchesAny, DecisionFor;
    var n := |s.log|;
    var s' := AfterCall(c, w, s, tool);
    assert s'.log == s.log + [s'.log[n]];
    forall j | 0 <= j < |s'.log| ensures DecidedRightly(c, s'.log, j) {
      ReadsOfPrefix(c.policy, s.log, s'.log[n], j);
      if j < n {
        assert DecidedRightly(c, s.log, j);
      } else {
        forall e | RuleSays(c.policy, tool, c.profile, s.tainted, e)
          ensures var effect := Gate(c.policy, tool, s.tainted, s.readPrivate, e);
                  var available := c.allowedTools == [] || tool in c.allowedTools;
                  && (s'.log[n].approval.Some? <==> available && effect == RequireApproval)
                  && (s'.log[n].executed <==>
                      available && (effect == Allow || (effect == RequireApproval && ByAPerson(s'.log[n]))))
        {
          NewCallDecided(c, w, s, tool, e);
        }
      }
    }
    FlagsAfterCall(c, w, s, tool);
  }

  lemma {:induction false} FlagsAfterCall(c: Config, w: World, s: RunState, tool: string)
    requires FlagsExact(c.policy, s)
    ensures FlagsExact(c.policy, AfterCall(c, w, s, tool))
  {
    var p, n := c.policy, |s.log|;
    var s' := AfterCall(c, w, s, tool);
    ReadsOfPrefix(p, s.log, s'.log[n], n);
    assert s'.log[n].executed && Taints(p, tool) ==> ReadOutside(p, s'.log, n + 1);
    assert s'.log[n].executed && ReadsPrivate(p, tool) ==> ReadInside(p, s'.log, n + 1);
  }

  lemma {:induction false} CallsKeepSafe(c: Config, w: World, s: RunState, calls: seq<ToolCall>)
    requires Safe(c, s)
    ensures Safe(c, AfterCalls(c, w, s, calls))
    decreases |calls|
  {
    if calls != [] {
      var before := AfterCalls(c, w, s, calls[..|calls| - 1]);
      CallsKeepSafe(c, w, s, calls[..|calls| - 1]);
      CallKeepsSafe(c, w, before, calls[|calls| - 1].name);
    }
  }

  /** Only the flags and the log matter. */
  lemma {:induction false} SafeOfLog(c: Config, s: RunState, s': RunState)
    requires Safe(c, s) && s'.log == s.log && s'.tainted == s.tainted && s'.readPrivate == s.readPrivate
    ensures Safe(c, s')
  {
    hide ReadOutside, ReadInside, DecidedRightly;
  }

  lemma {:induction false} IterationKeepsSafe(c: Config, w: World, s: RunState, i: nat)
    requires Safe(c, s)
    ensures Safe(c, Iterate(c, w, s, i).state)
  {
    hide AfterCalls, Safe, OverBudget;
    SafeOfLog(c, s, s.(iterations := i + 1));
    if w.model(i).Reply? {
      var r := w.model(i).response;
      var s1 := Accounted(c, s.(iterations := i + 1), r);
      SafeOfLog(c, s, s1);
      SafeOfLog(c, s, Asked(c, s1, r));
      CallsKeepSafe(c, w, Asked(c, s1, r), r.toolCalls);
    }
  }

  lemma {:induction false} RunKeepsSafe(c: Config, w: World, s: RunState, i: nat)
    requires Safe(c, s)
    ensures Safe(c, RunFrom(c, w, s, i).state)
    decreases c.maxIterations - i
  {
    hide Iterate, Safe;
    if i < c.maxIterations {
      IterationKeepsSafe(c, w, s, i);
      var turn := Iterate(c, w, s, i);
      if turn.end == None {
        RunKeepsSafe(c, w, turn.state, i + 1);
      }
    }
  }

  /** In every run, for any rules, replies, approver answers and tool outputs, every
      call is decided as the rules and the gates say in the state it came in;
      so one that the first applying rule, or the default, denies never executes. */
  lemma {:induction false} CallsDecidedExactly(c: Config, w: World, systemPrompt: string, task: string)
    ensures var log := RunFrom(c, w, Started(systemPrompt, task), 0).state.log;
            && (forall j :: 0 <= j < |log| ==> DecidedRightly(c, log, j))
            && (forall j :: 0 <= j < |log| && RuleSays(c.policy, log[j].tool, c.profile, ReadOutside(c.policy, log, j), Deny) ==>
                  !log[j].executed && log[j].approval.None?)
  {
    hide RunFrom, RuleSays;
    RunKeepsSafe(c, w, Started(systemPrompt, task), 0);
    var log := RunFrom(c, w, Started(systemPrompt, task), 0).state.log;
    forall j | 0 <= j < |log| && RuleSays(c.policy, log[j].tool, c.profile, ReadOutside(c.policy, log, j), Deny)
      ensures !log[j].executed && log[j].approval.None?
    {
      assert DecidedRightly(c, log, j);
    }
  }

  /** In every run, when the taint effect is not allow: a side-effect tool that
      executes after an external-content tool executed was approved by a
      person, and so was an egress tool that executes after external and
      private reads, calls inside one reply included. */
  lemma {:induction false} TaintIsContained(c: Config, w: World, systemPrompt: string, task: string)
    requires c.policy.taint.onEffect != Allow
    ensures var log := RunFrom(c, w, Started(systemPrompt, task), 0).state.log;
            forall j :: 0 <= j < |log| ==> KeepsTaintRule(c.policy, log, j)
  {
    hide RunFrom, DecidedRightly, KeepsTaintRule;
    CallsDecidedExactly(c, w, systemPrompt, task);
    var log := RunFrom(c, w, Started(systemPrompt, task), 0).state.log;
    forall j | 0 <= j < |log| ensures KeepsTaintRule(c.policy, log, j) {
      GatesKeepTaintRule(c, log, j);
    }
  }

  lemma {:induction false} GatesKeepTaintRule(c: Config, log: seq<Event>, j: nat)
    requires j < |log| && DecidedRightly(c, log, j) && c.policy.taint.onEffect != Allow
    ensures KeepsTaintRule(c.policy, log, j)
  {
    var e := OneEffectDecides(c.policy, log[j].tool, c.profile, ReadOutside(c.policy, log, j));
    assert RuleSays(c.policy, log[j].tool, c.profile, ReadOutside(c.policy, log, j), e);
    hide RuleSays, ReadOutside, ReadInside, MatchesAny;
  }

  /** The condition is the exact one for each call: after external content, a
      side-effect tool executes without a person exactly when the profile has
      it, the rules allow it and the taint effect is allow. */
  lemma {:induction false} TaintGateExactly(c: Config, w: World, s: RunState, tool: string)
    requires s.tainted && MatchesAny(c.policy.taint.effects, tool)
    ensures var e := AfterCall(c, w, s, tool).log[|s.log|];
            e.executed && !ByAPerson(e) <==>
              && ToolAllowed(c, tool) && c.policy.taint.onEffect == Allow
              && RuleSays(c.policy, tool, c.profile, s.tainted, Allow)
  {
    RanOnlyIfPermitted(DecisionFor(c, s, tool), w.approver(|s.log|));
    AllowedExactlyWhen(c.policy, tool, c.profile, s.tainted, s.readPrivate);
    hide Evaluate, RuleSays, MatchesAny, Refusal, Taints, ReadsPrivate;
  }

  /** What the model sees of a call: the tool's own output if it ran and gave one,
      and otherwise an error. */
  lemma {:induction false} ResultExactly(c: Config, w: World, s: RunState, tool: string)
    ensures var ran, said := AfterCall(c, w, s, tool).log[|s.log|].executed, w.tool(|s.log|);
            && (ran && said.Output? ==> ResultText(c, w, s, tool) == said.text)
            && (ran && said.ToolError? ==> ResultText(c, w, s, tool) == "Error: " + said.message)
            && (!ran ==> "Error: " <= ResultText(c, w, s, tool))
  {
    hide DecisionFor, Refusal, Taints, ReadsPrivate;
  }

  // ----- budgets ------------------------------------------------------------------------

  /** The state before iteration `n`, if the run gets that far. */
  function Before(c: Config, w: World, s: RunState, n: nat): Option<RunState> {
    if n == 0 then Some(s)
    else
      var before := Before(c, w, s, n - 1);
      if before == None || n > c.maxIterations then None
      else
        var turn := Iterate(c, w, before.value, n - 1);
        if turn.end == None then Some(turn.state) else None
  }

  lemma {:induction false} BeforeIsOnTheRun(c: Config, w: World, s: RunState, n: nat)
    requires Before(c, w, s, n).Some?
    ensures RunFrom(c, w, s, 0) == RunFrom(c, w, Before(c, w, s, n).value, n)
  {
    hide Iterate;
    if n > 0 {
      BeforeIsOnTheRun(c, w, s, n - 1);
    }
  }

  lemma {:induction false} CallsKeepTotals(c: Config, w: World, s: RunState, calls: seq<ToolCall>)
    ensures var t := AfterCalls(c, w, s, calls);
            t.inputTokens == s.inputTokens && t.outputTokens == s.outputTokens && t.cost == s.cost
    decreases |calls|
  {
    if calls != [] {
      CallsKeepTotals(c, w, s, calls[..|calls| - 1]);
    }
  }

  /** Tokens of the first `n` answers. */
  function InputTotal(w: World, n: nat): nat {
    if n == 0 then 0
    else
      var u := if w.model(n - 1).Reply? then w.model(n - 1).response.usage else None;
      InputTotal(w, n - 1) + (if u.Some? then u.value.inputTokens else 0)
  }

  function OutputTotal(w: World, n: nat): nat {
    if n == 0 then 0
    else
      var u := if w.model(n - 1).Reply? then w.model(n - 1).response.usage else None;
      OutputTotal(w, n - 1) + (if u.Some? then u.value.outputTokens else 0)
  }

  function CostAt(c: Config, w: World, i: nat): Option<real> {
    if w.model(i).Reply? then CostOf(w.model(i).response, c.pricing) else None
  }

  function CostTotal(c: Config, w: World, n: nat): real {
    if n == 0 then 0.0 else CostTotal(c, w, n - 1) + CostAt(c, w, n - 1).GetOr(0.0)
  }

  ghost predicate AnyCost(c: Config, w: World, n: nat) { exists i :: 0 <= i < n && CostAt(c, w, i).Some? }

  lemma {:induction false} OneMoreAnswer(c: Config, w: World, s: RunState, n: nat)
    requires n > 0 && w.model(n - 1).Reply?
    ensures var after := Accounted(c, s, w.model(n - 1).response);
            && after.inputTokens - s.inputTokens == InputTotal(w, n) - InputTotal(w, n - 1)
            && after.outputTokens - s.outputTokens == OutputTotal(w, n) - OutputTotal(w, n - 1)
            && after.cost == if CostAt(c, w, n - 1).Some? then Some(s.cost.GetOr(0.0) + CostAt(c, w, n - 1).value) else s.cost
    ensures CostTotal(c, w, n) == CostTotal(c, w, n - 1) + CostAt(c, w, n - 1).GetOr(0.0)
    ensures AnyCost(c, w, n) <==> AnyCost(c, w, n - 1) || CostAt(c, w, n - 1).Some?
  {
    CostExactly(w.model(n - 1).response, c.pricing);
    hide CostOf;
  }

  /** A run's counters are the sums over its answers: of all input and output
      tokens, and of the costs known, if any is. */
  lemma {:induction false} TotalsAreSums(c: Config, w: World, systemPrompt: string, task: string, n: nat)
    requires Before(c, w, Started(systemPrompt, task), n).Some?
    ensures var s := Before(c, w, Started(systemPrompt, task), n).value;
            && s.inputTokens == InputTotal(w, n) && s.outputTokens == OutputTotal(w, n)
            && (s.cost.Some? <==> AnyCost(c, w, n))
            && (s.cost.Some? ==> s.cost.value == CostTotal(c, w, n))
            && (s.cost.None? ==> CostTotal(c, w, n) == 0.0)
  {
    hide AfterCalls, OverBudget, Accounted, InputTotal, OutputTotal, CostTotal, AnyCost, CostAt;
    NothingAnswered(c, w);
    if n > 0 {
      TotalsAreSums(c, w, systemPrompt, task, n - 1);
      var s := Before(c, w, Started(systemPrompt, task), n - 1).value;
      var r := w.model(n - 1).response;
      CallsKeepTotals(c, w, Asked(c, Accounted(c, s.(iterations := n), r), r), r.toolCalls);
      OneMoreAnswer(c, w, s.(iterations := n), n);
    }
  }

  lemma NothingAnswered(c: Config, w: World)
    ensures InputTotal(w, 0) == OutputTotal(w, 0) == 0 && CostTotal(c, w, 0) == 0.0 && !AnyCost(c, w, 0)
  {
  }

  /** A run stops for its budget exactly when an answer takes its tokens or its
      known cost over what the profile allows. */
  lemma {:induction false} StopsOverBudget(c: Config, w: World, s: RunState, r: ChatResponse)
    ensures var after := Accounted(c, s, r);
            OnReply(c, w, s, r).end == Some(Stopped("budget exceeded")) <==>
            || (c.maxTokens.Some? && after.inputTokens + after.outputTokens > c.maxTokens.value)
            || (c.maxCost.Some? && after.cost.Some? && after.cost.value > c.maxCost.value)
  {
    hide AfterCalls, Accounted;
  }

  /** No model call of a run but the first is made over the run's budget: only
      the last call can cross it. */
  lemma {:induction false} ModelCalledWithinBudget(c: Config, w: World, systemPrompt: string, task: string, n: nat)
    requires n > 0 && Before(c, w, Started(systemPrompt, task), n).Some?
    ensures var s := Before(c, w, Started(systemPrompt, task), n).value;
            && (c.maxTokens.Some? ==> s.inputTokens + s.outputTokens <= c.maxTokens.value)
            && (c.maxCost.Some? && s.cost.Some? ==> s.cost.value <= c.maxCost.value)
  {
    var s := Before(c, w, Started(systemPrompt, task), n - 1).value;
    var r := w.model(n - 1).response;
    CallsKeepTotals(c, w, Asked(c, Accounted(c, s.(iterations := n), r), r), r.toolCalls);
  }

  /** The model is asked only with time left and the tenant's budget admitting the
      call; a run that has neither, or gets no answer, or gets one without calls,
      ends there, and no tool runs. */
  lemma {:induction false} IterationExactly(c: Config, w: World, s: RunState, i: nat)
    ensures var turn, asked := Iterate(c, w, s, i), w.timeLeft(i) && w.admitted(i) && w.model(i).Reply?;
            && turn.state.iterations == i + 1
            && (!asked ==> turn.end.Some? && turn.end.value.Stopped? && turn.state == s.(iterations := i + 1))
            && (asked && w.model(i).response.toolCalls == [] ==>
                  turn.end.Some? && turn.state.messages == s.messages && turn.state.log == s.log)
            && (turn.end == None ==> asked && |turn.state.log| == |s.log| + |w.model(i).response.toolCalls|)
  {
    hide OverBudget, CostOf;
    if w.model(i).Reply? {
      var r := w.model(i).response;
      CallsAreLogged(c, w, Asked(c, Accounted(c, s.(iterations := i + 1), r), r), r.toolCalls);
    }
    hide AfterCalls;
  }

  /** Every call of a reply is recorded, in order. */
  lemma {:induction false} CallsAreLogged(c: Config, w: World, s: RunState, calls: seq<ToolCall>)
    ensures var t := AfterCalls(c, w, s, calls);
            && t.iterations == s.iterations && |t.log| == |s.log| + |calls| && s.log <= t.log
            && forall k :: 0 <= k < |calls| ==> t.log[|s.log| + k].tool == calls[k].name
    decreases |calls|
  {
    hide DecisionFor, Refusal, ResultText, Taints, ReadsPrivate;
    if calls != [] {
      CallsAreLogged(c, w, s, calls[..|calls| - 1]);
    }
  }

  // ----- the transcript -------------------------------------------------------------------

  /** The result messages the calls of one reply add. */
  function Results(c: Config, w: World, s: RunState, calls: seq<ToolCall>): seq<Message>
    decreases |calls|
  {
    if calls == [] then []
    else
      var rest, call := calls[..|calls| - 1], calls[|calls| - 1];
      Results(c, w, s, rest) + [ToolResult(call.id, ResultText(c, w, AfterCalls(c, w, s, rest), call.name))]
  }

  lemma {:induction false} CallsAddResults(c: Config, w: World, s: RunState, calls: seq<ToolCall>)
    ensures AfterCalls(c, w, s, calls).messages == s.messages + Results(c, w, s, calls)
    decreases |calls|
  {
    if calls != [] {
      CallsAddResults(c, w, s, calls[..|calls| - 1]);
    }
  }

  lemma {:induction false} ResultsAnswerInOrder(c: Config, w: World, s: RunState, calls: seq<ToolCall>)
    ensures var results := Results(c, w, s, calls);
            |results| == |calls| && forall i :: 0 <= i < |calls| ==> IsResultOf(results[i], calls[i])
    decreases |calls|
  {
    hide AfterCalls, ResultText;
    if calls != [] {
      ResultsAnswerInOrder(c, w, s, calls[..|calls| - 1]);
    }
  }

  lemma {:induction false} RoundOf(content: string, calls: seq<ToolCall>, results: seq<Message>)
    requires |results| == |calls| > 0 && forall i :: 0 <= i < |calls| ==> IsResultOf(results[i], calls[i])
    ensures IsRound([AssistantWithTools(content, calls)] + results)
  {
  }

  lemma {:induction false} AccountingKeepsMessages(c: Config, s: RunState, r: ChatResponse)
    ensures Accounted(c, s, r).messages == s.messages
  {
  }

  lemma {:induction false} ReplyKeepsTranscript(c: Config, w: World, s: RunState, r: ChatResponse)
    requires IsTranscript(s.messages)
    ensures IsTranscript(OnReply(c, w, s, r).state.messages)
  {
    hide AfterCalls, Results, IsTranscript, IsRound, IsResultOf, Accounted;
    assert Accounted(c, s, r).messages == s.messages by { AccountingKeepsMessages(c, s, r); }
    if r.toolCalls != [] {
      var asked := Asked(c, Accounted(c, s, r), r);
      CallsAddResults(c, w, asked, r.toolCalls);
      ResultsAnswerInOrder(c, w, asked, r.toolCalls);
      var call := AssistantWithTools(c.stripThink(r.content), r.toolCalls);
      var round := [call] + Results(c, w, asked, r.toolCalls);
      RoundOf(c.stripThink(r.content), r.toolCalls, Results(c, w, asked, r.toolCalls));
      TranscriptExtended(s.messages, round);
      assert s.messages + [call] + Results(c, w, asked, r.toolCalls) == s.messages + round;
    }
  }

  lemma {:induction false} IterationKeepsTranscript(c: Config, w: World, s: RunState, i: nat)
    requires IsTranscript(s.messages)
    ensures IsTranscript(Iterate(c, w, s, i).state.messages)
  {
    if w.model(i).Reply? {
      ReplyKeepsTranscript(c, w, s.(iterations := i + 1), w.model(i).response);
    }
  }

  /** Whenever a run calls the model, its messages are a system prompt, what
      the user asked, and turns in which every tool call is answered once, in order. */
  lemma {:induction false} ModelSeesTranscript(c: Config, w: World, systemPrompt: string, task: string, n: nat)
    requires Before(c, w, Started(systemPrompt, task), n).Some?
    ensures IsTranscript(Before(c, w, Started(systemPrompt, task), n).value.messages)
  {
    hide Iterate;
    if n == 0 {
      assert Started(systemPrompt, task).messages[2..] == [];
    } else {
      ModelSeesTranscript(c, w, systemPrompt, task, n - 1);
      IterationKeepsTranscript(c, w, Before(c, w, Started(systemPrompt, task), n - 1).value, n - 1);
    }
  }

  /** What the Anthropic API receives at every model call of every run: messages
      that start with the user and strictly alternate, each assistant message's
      calls answered in order and once by the next, and nothing lost. */
  lemma {:induction false} ModelCallIsWellShaped(c: Config, w: World, systemPrompt: string, task: string, n: nat)
    requires Before(c, w, Started(systemPrompt, task), n).Some?
    ensures var ms := Before(c, w, Started(systemPrompt, task), n).value.messages;
            && Transcript.WellShaped(Transcript.Converted(ms))
            && Transcript.Decode(Transcript.Converted(ms)) == ms[1..]
  {
    hide *;
    ModelSeesTranscript(c, w, systemPrompt, task, n);
    var ms := Before(c, w, Started(systemPrompt, task), n).value.messages;
    Transcript.TranscriptIsWellShaped(ms);
    Transcript.TranscriptReadBack(ms);
  }
}
