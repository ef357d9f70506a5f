/** Messages, tool calls and answers exchanged with a model (src/llm/mod.rs). */
module Llm {
  import opened Common

  datatype Json =
    | JNull
    | JBool(b: bool)
    | JNumber(n: real)
    | JString(s: string)
    | JArray(items: seq<Json>)
    | JObject(fields: map<string, Json>)

  datatype ToolCall = ToolCall(id: string, name: string, arguments: Json)

  datatype Role = System | User | Assistant | Tool

  datatype Message = Message(
    role: Role,
    content: string,
    toolCallId: Option<string>,
    toolCalls: Option<seq<ToolCall>>)

  function SystemMessage(content: string): Message { Message(System, content, None, None) }

  function UserMessage(content: string): Message { Message(User, content, None, None) }

  function AssistantWithTools(content: string, calls: seq<ToolCall>): Message {
    Message(Assistant, content, None, Some(calls))
  }

  function ToolResult(id: string, content: string): Message { Message(Tool, content, Some(id), None) }

  datatype Usage = Usage(inputTokens: nat, outputTokens: nat)

  datatype Pricing = Pricing(inputPerMtok: real, outputPerMtok: real)

  /** The model of a fallback chain that answered, and its price. */
  datatype ServedBy = ServedBy(model: string, pricing: Option<Pricing>)

  datatype ChatResponse = ChatResponse(
    content: string,
    toolCalls: seq<ToolCall>,
    usage: Option<Usage>,
    servedBy: Option<ServedBy>)

  datatype Reply = Reply(response: ChatResponse) | ReplyError(message: string)

  function PriceOf(u: Usage, p: Pricing): real {
    (u.inputTokens as real * p.inputPerMtok + u.outputTokens as real * p.outputPerMtok) / 1_000_000.0
  }

  /** Cost of an answer at `pricing`, or at the price of the model that served
      it when a fallback answered. */
  function CostOf(r: ChatResponse, pricing: Option<Pricing>): Option<real> {
    var p := if r.servedBy.Some? then r.servedBy.value.pricing else pricing;
    if p.Some? && r.usage.Some? then Some(PriceOf(r.usage.value, p.value)) else None
  }

  /** A million input tokens cost the input price, a million output tokens the
      output price, and the prices of two usages add up. */
  lemma {:induction false} PriceIsPerMillion(u: Usage, v: Usage, p: Pricing, millions: nat)
    ensures PriceOf(Usage(1_000_000 * millions, 0), p) == millions as real * p.inputPerMtok
    ensures PriceOf(Usage(0, 1_000_000 * millions), p) == millions as real * p.outputPerMtok
    ensures PriceOf(Usage(u.inputTokens + v.inputTokens, u.outputTokens + v.outputTokens), p) == PriceOf(u, p) + PriceOf(v, p)
  {
  }

  /** The price that counts is that of the fallback that answered, even if it has
      none, and otherwise the model's own; without usage or price there is no cost. */
  lemma {:induction false} CostExactly(r: ChatResponse, own: Option<Pricing>)
    ensures r.usage.None? ==> CostOf(r, own) == None
    ensures r.usage.Some? && r.servedBy.None? ==>
              CostOf(r, own) == if own.Some? then Some(PriceOf(r.usage.value, own.value)) else None
    ensures r.servedBy.Some? ==> CostOf(r, own) == CostOf(r.(servedBy := None), r.servedBy.value.pricing)
  {
  }

  // ----- the transcript a run builds ---------------------------------------------

  predicate IsResultOf(m: Message, call: ToolCall) {
    m == ToolResult(call.id, m.content)
  }

  /** One turn: the assistant's calls, then one result for each, in order. */
  predicate IsRound(ms: seq<Message>) {
    && |ms| > 1 && ms[0].toolCalls.Some? && |ms[0].toolCalls.value| == |ms| - 1
    && ms[0] == AssistantWithTools(ms[0].content, ms[0].toolCalls.value)
    && forall i :: 0 <= i < |ms| - 1 ==> IsResultOf(ms[i + 1], ms[0].toolCalls.value[i])
  }

  /** The messages of some turns, one after the other. */
  ghost predicate AreRounds(ms: seq<Message>) {
    ms == [] || exists n :: 1 < n <= |ms| && IsRound(ms[..n]) && AreRounds(ms[n..])
  }

  /** A system prompt, what the user asked, then turns. */
  ghost predicate IsTranscript(ms: seq<Message>) {
    |ms| >= 2 && ms[0] == SystemMessage(ms[0].content) && ms[1] == UserMessage(ms[1].content) && AreRounds(ms[2..])
  }

  lemma {:induction false} FirstRound(ms: seq<Message>) returns (n: nat)
    requires AreRounds(ms) && ms != []
    ensures 1 < n <= |ms| && IsRound(ms[..n]) && AreRounds(ms[n..])
  {
    hide IsRound;
    n :| 1 < n <= |ms| && IsRound(ms[..n]) && AreRounds(ms[n..]);
  }

  lemma {:induction false} RoundFirst(first: seq<Message>, rest: seq<Message>)
    requires IsRound(first) && AreRounds(rest)
    ensures AreRounds(first + rest)
  {
    assert |first| > 1;
    hide IsRound;
    assert (first + rest)[..|first|] == first && (first + rest)[|first|..] == rest;
  }

  lemma {:induction false} RoundAppended(ms: seq<Message>, round: seq<Message>)
    requires AreRounds(ms) && IsRound(round)
    ensures AreRounds(ms + round)
  {
    hide IsRound, AreRounds;
    if ms == [] {
      RoundFirst(round, ms);
      assert ms + round == round + ms;
    } else {
      var n := FirstRound(ms);
      RoundAppended(ms[n..], round);
      RoundFirst(ms[..n], ms[n..] + round);
      assert ms + round == ms[..n] + (ms[n..] + round);
    }
  }

  lemma {:induction false} TranscriptExtended(ms: seq<Message>, round: seq<Message>)
    requires IsTranscript(ms) && IsRound(round)
    ensures IsTranscript(ms + round)
  {
    RoundAppended(ms[2..], round);
    assert (ms + round)[2..] == ms[2..] + round;
  }
}
