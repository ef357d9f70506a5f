/** The transcript as the Anthropic API takes it (src/llm/anthropic.rs): system
    text apart, tool calls and results as content parts, consecutive tool
    results merged into one user message. */
module Transcript {
  import opened Common
  import opened Llm

  datatype Part =
    | TextPart(text: string)
    | ToolUse(id: string, name: string, input: Json)
    | ToolResultPart(toolUseId: string, content: string)

  datatype Content = Plain(text: string) | Parts(parts: seq<Part>)

  datatype Speaker = ByUser | ByAssistant

  datatype WireMessage = WireMessage(role: Speaker, content: Content)

  // ----- the conversion -----------------------------------------------------------------

  function UseParts(calls: seq<ToolCall>): seq<Part> {
    seq(|calls|, i requires 0 <= i < |calls| => ToolUse(calls[i].id, calls[i].name, calls[i].arguments))
  }

  function AssistantParts(m: Message): seq<Part> {
    (if m.content != "" then [TextPart(m.content)] else []) + UseParts(m.toolCalls.GetOr([]))
  }

  function AssistantContent(m: Message): Content {
    var parts := AssistantParts(m);
    if |parts| == 1 && parts[0].TextPart? then Plain(parts[0].text) else Parts(parts)
  }

  function ResultPart(m: Message): Part {
    ToolResultPart(m.toolCallId.GetOr("unknown"), m.content)
  }

  predicate Merges(out: seq<WireMessage>) {
    |out| > 0 && out[|out| - 1].role == ByUser && out[|out| - 1].content.Parts?
  }

  function Extended(out: seq<WireMessage>, m: Message): seq<WireMessage> {
    match m.role
    case System => out
    case User => out + [WireMessage(ByUser, Plain(m.content))]
    case Assistant => out + [WireMessage(ByAssistant, AssistantContent(m))]
    case Tool =>
      if Merges(out) then
        var last := out[|out| - 1];
        out[..|out| - 1] + [last.(content := Parts(last.content.parts + [ResultPart(m)]))]
      else out + [WireMessage(ByUser, Parts([ResultPart(m)]))]
  }

  function Converted(messages: seq<Message>): seq<WireMessage> {
    if messages == [] then []
    else Extended(Converted(messages[..|messages| - 1]), messages[|messages| - 1])
  }

  function SystemText(messages: seq<Message>): Option<string> {
    if messages == [] then None
    else if messages[|messages| - 1].role == System then Some(messages[|messages| - 1].content)
    else SystemText(messages[..|messages| - 1])
  }

  /** The last system message is the one kept. */
  lemma {:induction false} SystemTextIsLast(messages: seq<Message>)
    ensures SystemText(messages) == None <==> forall i :: 0 <= i < |messages| ==> messages[i].role != System
    ensures SystemText(messages).Some? ==> exists i :: (
              && 0 <= i < |messages| && messages[i].role == System && messages[i].content == SystemText(messages).value
              && forall j :: i < j < |messages| ==> messages[j].role != System)
  {
    if messages != [] {
      var n := |messages| - 1;
      SystemTextIsLast(messages[..n]);
      if messages[n].role != System && SystemText(messages).Some? {
        var i :| 0 <= i < n && messages[..n][i].role == System && messages[..n][i].content == SystemText(messages).value
                 && forall j :: i < j < n ==> messages[..n][j].role != System;
        assert messages[i].role == System;
      }
      assert forall i :: 0 <= i < n ==> messages[..n][i] == messages[i];
    }
  }

  /** What an assistant message becomes: its text alone, or parts when it calls
      tools, its text first if it says anything. */
  lemma {:induction false} AssistantExactly(content: string, calls: seq<ToolCall>)
    ensures var wire, plain := AssistantContent(AssistantWithTools(content, calls)),
                               AssistantContent(Message(Assistant, content, None, None));
            && (calls == [] ==> wire == plain)
            && plain == (if content == "" then Parts([]) else Plain(content))
            && (calls != [] ==>
                  wire == Parts((if content == "" then [] else [TextPart(content)])
                    + seq(|calls|, i requires 0 <= i < |calls| => ToolUse(calls[i].id, calls[i].name, calls[i].arguments))))
  {
    assert UseParts([]) == [];
    assert content != "" ==> [TextPart(content)] + UseParts([]) == [TextPart(content)];
  }

  method ToAnthropicMessages(messages: seq<Message>) returns (system: Option<string>, out: seq<WireMessage>)
    ensures system == SystemText(messages) && out == Converted(messages)
  {
    system, out := None, [];
    for i := 0 to |messages|
      invariant system == SystemText(messages[..i]) && out == Converted(messages[..i])
    {
      assert messages[..i + 1][..i] == messages[..i];
      var m := messages[i];
      match m.role {
        case System => system := Some(m.content);
        case User => out := out + [WireMessage(ByUser, Plain(m.content))];
        case Assistant =>
          var parts := [];
          if m.content != "" { parts := parts + [TextPart(m.content)]; }
          if m.toolCalls.Some? { parts := parts + UseParts(m.toolCalls.value); }
          assert parts == AssistantParts(m);
          out := out + [WireMessage(ByAssistant,
            if |parts| == 1 && parts[0].TextPart? then Plain(parts[0].text) else Parts(parts))];
        case Tool =>
          var part := ToolResultPart(m.toolCallId.GetOr("unknown"), m.content);
          if |out| > 0 && out[|out| - 1].role == ByUser && out[|out| - 1].content.Parts? {
            var n := |out| - 1;
            out := out[n := out[n].(content := Parts(out[n].content.parts + [part]))];
          } else {
            out := out + [WireMessage(ByUser, Parts([part]))];
          }
      }
    }
    assert messages[..|messages|] == messages;
  }

  // ----- reading it back ------------------------------------------------------------------

  function CallsOf(parts: seq<Part>): seq<ToolCall> {
    if parts == [] then []
    else if parts[0].ToolUse? then [ToolCall(parts[0].id, parts[0].name, parts[0].input)] + CallsOf(parts[1..])
    else CallsOf(parts[1..])
  }

  function TextOf(parts: seq<Part>): string {
    if parts != [] && parts[0].TextPart? then parts[0].text else ""
  }

  function ResultsOf(parts: seq<Part>): seq<Message> {
    if parts == [] then []
    else
      var p := parts[|parts| - 1];
      ResultsOf(parts[..|parts| - 1]) + (if p.ToolResultPart? then [ToolResult(p.toolUseId, p.content)] else [])
  }

  function AssistantMessage(content: string, calls: seq<ToolCall>): Message {
    Message(Assistant, content, None, if calls == [] then None else Some(calls))
  }

  function DecodeOne(w: WireMessage): seq<Message> {
    match (w.role, w.content)
    case (ByUser, Plain(t)) => [UserMessage(t)]
    case (ByUser, Parts(ps)) => ResultsOf(ps)
    case (ByAssistant, Plain(t)) => [AssistantMessage(t, [])]
    case (ByAssistant, Parts(ps)) => [AssistantMessage(TextOf(ps), CallsOf(ps))]
  }

  function Decode(wire: seq<WireMessage>): seq<Message> {
    if wire == [] then [] else Decode(wire[..|wire| - 1]) + DecodeOne(wire[|wire| - 1])
  }

  /** What the wire can say about a message: a missing tool id becomes
      "unknown", no calls and an empty list of calls are the same. */
  function Normal(m: Message): seq<Message> {
    match m.role
    case System => []
    case User => [UserMessage(m.content)]
    case Assistant => [AssistantMessage(m.content, m.toolCalls.GetOr([]))]
    case Tool => [ToolResult(m.toolCallId.GetOr("unknown"), m.content)]
  }

  function AllNormal(messages: seq<Message>): seq<Message> {
    if messages == [] then [] else AllNormal(messages[..|messages| - 1]) + Normal(messages[|messages| - 1])
  }

  lemma {:induction false} CallsReadBack(calls: seq<ToolCall>)
    ensures CallsOf(UseParts(calls)) == calls
  {
    if calls != [] {
      CallsReadBack(calls[1..]);
      assert UseParts(calls)[1..] == UseParts(calls[1..]);
    }
  }

  lemma {:induction false} AssistantReadBack(m: Message)
    requires m.role == Assistant
    ensures DecodeOne(WireMessage(ByAssistant, AssistantContent(m))) == Normal(m)
  {
    var calls := m.toolCalls.GetOr([]);
    CallsReadBack(calls);
    var parts := AssistantParts(m);
    if m.content != "" {
      assert parts[1..] == UseParts(calls);
    } else {
      assert parts == UseParts(calls);
    }
  }

  lemma {:induction false} DecodeAppend(out: seq<WireMessage>, w: WireMessage)
    ensures Decode(out + [w]) == Decode(out) + DecodeOne(w)
  {
    hide DecodeOne;
    assert (out + [w])[..|out|] == out;
  }

  lemma {:induction false} ResultsAppend(parts: seq<Part>, m: Message)
    ensures ResultsOf(parts + [ResultPart(m)]) == ResultsOf(parts) + [ToolResult(m.toolCallId.GetOr("unknown"), m.content)]
  {
    assert (parts + [ResultPart(m)])[..|parts|] == parts;
  }

  lemma {:induction false} MergeReadBack(out: seq<WireMessage>, m: Message)
    requires m.role == Tool && Merges(out)
    ensures Decode(Extended(out, m)) == Decode(out) + Normal(m)
  {
    hide DecodeOne;
    var rest, last := out[..|out| - 1], out[|out| - 1];
    var merged := last.(content := Parts(last.content.parts + [ResultPart(m)]));
    ResultsAppend(last.content.parts, m);
    DecodeAppend(rest, last);
    DecodeAppend(rest, merged);
    assert out == rest + [last];
    assert DecodeOne(last) == ResultsOf(last.content.parts) by { PartsReadBack(last); }
    assert DecodeOne(merged) == ResultsOf(merged.content.parts) by { PartsReadBack(merged); }
    assert Decode(rest) + (DecodeOne(last) + Normal(m)) == Decode(rest) + DecodeOne(last) + Normal(m);
  }

  lemma {:induction false} PartsReadBack(w: WireMessage)
    requires w.role == ByUser && w.content.Parts?
    ensures DecodeOne(w) == ResultsOf(w.content.parts)
  {
  }

  lemma {:induction false} ExtensionReadBack(out: seq<WireMessage>, m: Message)
    ensures Decode(Extended(out, m)) == Decode(out) + Normal(m)
  {
    match m.role
    case System =>
    case User => DecodeAppend(out, WireMessage(ByUser, Plain(m.content)));
    case Assistant =>
      AssistantReadBack(m);
      DecodeAppend(out, WireMessage(ByAssistant, AssistantContent(m)));
    case Tool =>
      if Merges(out) {
        MergeReadBack(out, m);
      } else {
        ResultsAppend([], m);
        DecodeAppend(out, WireMessage(ByUser, Parts([ResultPart(m)])));
        assert [] + [ResultPart(m)] == [ResultPart(m)];
      }
  }

  /** For every list of messages, reading the converted list back gives the
      non-system messages in order, up to what the wire cannot say. */
  lemma {:induction false} NothingIsLost(messages: seq<Message>)
    ensures Decode(Converted(messages)) == AllNormal(messages)
  {
    if messages != [] {
      var rest := messages[..|messages| - 1];
      NothingIsLost(rest);
      ExtensionReadBack(Converted(rest), messages[|messages| - 1]);
    }
  }

  // ----- transcripts -------------------------------------------------------------------------

  /** Messages a round holds: none is a system prompt, and the wire says all
      of each. */
  predicate Sayable(m: Message) {
    m.role != System && Normal(m) == [m]
  }

  lemma {:induction false} RoundsAreSayable(ms: seq<Message>, i: nat)
    requires AreRounds(ms) && i < |ms|
    ensures Sayable(ms[i])
  {
    var n := FirstRound(ms);
    var round := ms[..n];
    hide AreRounds;
    if i < n {
      assert round[i] == ms[i];
      if i > 0 {
        assert IsResultOf(round[i - 1 + 1], round[0].toolCalls.value[i - 1]);
      }
    } else {
      RoundsAreSayable(ms[n..], i - n);
    }
  }

  lemma {:induction false} SayableAfter(head: seq<Message>, rest: seq<Message>)
    requires forall i :: 0 <= i < |rest| ==> Sayable(rest[i])
    ensures AllNormal(head + rest) == AllNormal(head) + rest
    ensures SystemText(head + rest) == SystemText(head)
  {
    hide AllNormal, SystemText, Sayable;
    if rest == [] {
      assert head + rest == head && AllNormal(head) + rest == AllNormal(head);
    } else {
      var before, last := rest[..|rest| - 1], rest[|rest| - 1];
      SayableAfter(head, before);
      OneSayable(head + before, last);
      assert head + rest == (head + before) + [last];
      assert AllNormal(head) + before + [last] == AllNormal(head) + rest;
    }
  }

  lemma OneSayable(messages: seq<Message>, last: Message)
    requires Sayable(last)
    ensures AllNormal(messages + [last]) == AllNormal(messages) + [last]
    ensures SystemText(messages + [last]) == SystemText(messages)
  {
    assert (messages + [last])[..|messages|] == messages;
    hide Normal;
  }

  lemma TranscriptParts(ms: seq<Message>)
    requires IsTranscript(ms)
    ensures |ms| >= 2 && ms[0].role == System && Sayable(ms[1]) && AreRounds(ms[2..])
  {
    hide AreRounds;
  }

  lemma SystemAlone(m: Message)
    requires m.role == System
    ensures AllNormal([m]) == [] && SystemText([m]) == Some(m.content)
  {
    assert [m][..0] == [];
  }

  /** For the transcript of a run, the system text comes apart and reading the
      rest back gives exactly the messages that follow it. */
  lemma {:induction false} TranscriptReadBack(ms: seq<Message>)
    requires IsTranscript(ms)
    ensures Decode(Converted(ms)) == ms[1..]
    ensures SystemText(ms) == Some(ms[0].content)
  {
    hide *;
    NothingIsLost(ms);
    TranscriptParts(ms);
    var rest := ms[1..];
    SystemAlone(ms[0]);
    forall i | 0 <= i < |rest| ensures Sayable(rest[i]) {
      if i > 0 {
        RoundsAreSayable(ms[2..], i - 1);
      }
    }
    SayableAfter([ms[0]], rest);
    assert ms == [ms[0]] + rest;
  }

  // ----- the shape of a converted transcript -------------------------------------------------

  function UseIds(parts: seq<Part>): seq<string> {
    if parts == [] then []
    else (if parts[0].ToolUse? then [parts[0].id] else []) + UseIds(parts[1..])
  }

  function ResultIds(parts: seq<Part>): seq<string> {
    if parts == [] then []
    else ResultIds(parts[..|parts| - 1]) + (if parts[|parts| - 1].ToolResultPart? then [parts[|parts| - 1].toolUseId] else [])
  }

  /** Starts and ends with the user, roles strictly alternate, and the next
      user message answers the calls of each assistant message, in order and
      once each. */
  ghost predicate WellShaped(out: seq<WireMessage>) {
    && |out| % 2 == 1
    && (forall i :: 0 <= i < |out| ==> out[i].role == if i % 2 == 0 then ByUser else ByAssistant)
    && (forall i :: 0 <= i < |out| - 1 && i % 2 == 1 ==> Answers(out[i], out[i + 1]))
  }

  predicate Answers(asked: WireMessage, answered: WireMessage) {
    && asked.content.Parts? && answered.content.Parts?
    && UseIds(asked.content.parts) == ResultIds(answered.content.parts)
    && UseIds(asked.content.parts) != []
  }

  function CallIds(calls: seq<ToolCall>): seq<string> {
    seq(|calls|, i requires 0 <= i < |calls| => calls[i].id)
  }

  lemma {:induction false} IdsOfUses(calls: seq<ToolCall>)
    ensures UseIds(UseParts(calls)) == CallIds(calls)
  {
    if calls != [] {
      IdsOfUses(calls[1..]);
      assert UseParts(calls)[1..] == UseParts(calls[1..]);
      assert CallIds(calls) == [calls[0].id] + CallIds(calls[1..]);
    }
  }

  /** The results of a round, converted one by one after its calls, end up in
      a single user message. */
  lemma {:induction false} ResultsMerge(prefix: seq<Message>, round: seq<Message>, n: nat) returns (parts: seq<Part>)
    requires IsRound(round) && 1 < n <= |round|
    ensures Converted(prefix + round[..n]) ==
      Converted(prefix) + [WireMessage(ByAssistant, AssistantContent(round[0])), WireMessage(ByUser, Parts(parts))]
    ensures ResultIds(parts) == CallIds(round[0].toolCalls.value[..n - 1])
  {
    var calls, part := round[0].toolCalls.value, ResultPart(round[n - 1]);
    var call := WireMessage(ByAssistant, AssistantContent(round[0]));
    assert IsResultOf(round[n - 2 + 1], calls[n - 2]);
    assert round[n - 1].role == Tool && part == ToolResultPart(calls[n - 2].id, round[n - 1].content);
    assert round[0].role == Assistant;
    hide Converted, AssistantContent, IsRound, IsResultOf, ResultPart, ResultIds, CallIds, Extended;
    assert prefix + round[..n] == (prefix + round[..n - 1]) + [round[n - 1]];
    ConvertedOneMore(prefix + round[..n - 1], round[n - 1]);
    var before := [];
    if n == 2 {
      assert prefix + round[..1] == prefix + [round[0]];
      ConvertedOneMore(prefix, round[0]);
      FirstResult(Converted(prefix), round[0], round[n - 1]);
      NoIds(calls);
    } else {
      before := ResultsMerge(prefix, round, n - 1);
      NextResult(Converted(prefix) + [call], before, round[n - 1]);
      assert Converted(prefix) + [call] + [WireMessage(ByUser, Parts(before))]
          == Converted(prefix) + [call, WireMessage(ByUser, Parts(before))];
    }
    parts := before + [part];
    OneMoreId(before, calls, n - 2, part.content);
  }

  lemma FirstResult(out: seq<WireMessage>, asked: Message, m: Message)
    requires asked.role == Assistant && m.role == Tool
    ensures Extended(Extended(out, asked), m) ==
            out + [WireMessage(ByAssistant, AssistantContent(asked)), WireMessage(ByUser, Parts([] + [ResultPart(m)]))]
  {
    hide AssistantContent, ResultPart;
    var longer := Extended(out, asked);
    assert longer == out + [WireMessage(ByAssistant, AssistantContent(asked))] && !Merges(longer);
    assert [] + [ResultPart(m)] == [ResultPart(m)];
  }

  lemma NextResult(out: seq<WireMessage>, parts: seq<Part>, m: Message)
    requires m.role == Tool
    ensures Extended(out + [WireMessage(ByUser, Parts(parts))], m) ==
            out + [WireMessage(ByUser, Parts(parts + [ResultPart(m)]))]
  {
    hide ResultPart;
    var longer := out + [WireMessage(ByUser, Parts(parts))];
    assert longer[..|longer| - 1] == out && longer[|longer| - 1].content.parts == parts;
    assert Merges(longer);
    assert Extended(longer, m) == out + [longer[|longer| - 1].(content := Parts(parts + [ResultPart(m)]))];
  }

  lemma NoIds(calls: seq<ToolCall>)
    ensures ResultIds([]) == [] == CallIds(calls[..0])
  {
  }

  lemma OneMoreId(parts: seq<Part>, calls: seq<ToolCall>, n: nat, content: string)
    requires n < |calls| && ResultIds(parts) == CallIds(calls[..n])
    ensures ResultIds(parts + [ToolResultPart(calls[n].id, content)]) == CallIds(calls[..n + 1])
  {
    var more := parts + [ToolResultPart(calls[n].id, content)];
    assert more[..|parts|] == parts;
    assert calls[..n + 1] == calls[..n] + [calls[n]];
  }

  lemma ConvertedOneMore(messages: seq<Message>, m: Message)
    ensures Converted(messages + [m]) == Extended(Converted(messages), m)
  {
    assert (messages + [m])[..|messages|] == messages;
  }

  lemma {:induction false} ShapeExtended(out: seq<WireMessage>, asked: WireMessage, answered: WireMessage)
    requires WellShaped(out) && asked.role == ByAssistant && answered.role == ByUser && Answers(asked, answered)
    ensures WellShaped(out + [asked, answered])
  {
    hide Answers;
    var longer := out + [asked, answered];
    forall i | 0 <= i < |longer| - 1 && i % 2 == 1
      ensures Answers(longer[i], longer[i + 1])
    {
      if i < |out| - 1 {
        assert Answers(out[i], out[i + 1]);
      }
    }
  }

  lemma {:induction false} UsesOfAssistant(m: Message)
    requires m.role == Assistant && m.toolCalls.Some? && m.toolCalls.value != []
    ensures AssistantContent(m) == Parts(AssistantParts(m))
    ensures UseIds(AssistantParts(m)) == CallIds(m.toolCalls.value)
  {
    var calls, parts := m.toolCalls.value, AssistantParts(m);
    IdsOfUses(calls);
    if m.content != "" {
      assert parts[1..] == UseParts(calls);
    } else {
      assert parts == UseParts(calls);
    }
  }

  lemma {:induction false} RoundKeepsShape(prefix: seq<Message>, round: seq<Message>)
    requires IsRound(round) && WellShaped(Converted(prefix))
    ensures WellShaped(Converted(prefix + round))
  {
    hide Converted, WellShaped, AssistantContent, AssistantParts, UseIds, ResultIds;
    var parts := ResultsMerge(prefix, round, |round|);
    assert round[..|round|] == round;
    var calls := round[0].toolCalls.value;
    assert calls[..|round| - 1] == calls;
    UsesOfAssistant(round[0]);
    assert CallIds(calls) != [] by { assert |CallIds(calls)| == |calls|; }
    ShapeExtended(Converted(prefix), WireMessage(ByAssistant, AssistantContent(round[0])), WireMessage(ByUser, Parts(parts)));
  }

  lemma {:induction false} RoundsKeepShape(prefix: seq<Message>, ms: seq<Message>)
    requires AreRounds(ms) && WellShaped(Converted(prefix))
    ensures WellShaped(Converted(prefix + ms))
    decreases |ms|
  {
    hide IsRound, AreRounds, WellShaped, Converted;
    if ms == [] {
      assert prefix + ms == prefix;
    } else {
      var n := FirstRound(ms);
      RoundKeepsShape(prefix, ms[..n]);
      RoundsKeepShape(prefix + ms[..n], ms[n..]);
      assert prefix + ms[..n] + ms[n..] == prefix + ms;
    }
  }

  /** The transcript of a run converts to messages that start with the user and
      strictly alternate, every assistant message's calls answered in order
      and exactly once by the next message. */
  lemma {:induction false} TranscriptIsWellShaped(ms: seq<Message>)
    requires IsTranscript(ms)
    ensures WellShaped(Converted(ms)) && Converted(ms)[0] == WireMessage(ByUser, Plain(ms[1].content))
  {
    var head := ms[..2];
    assert head[..1] == [ms[0]] && [ms[0]][..0] == [];
    assert Converted([ms[0]]) == [];
    assert Converted(head) == [WireMessage(ByUser, Plain(ms[1].content))];
    RoundsKeepShape(head, ms[2..]);
    FirstIsKept(head, ms[2..]);
    assert head + ms[2..] == ms;
  }

  lemma {:induction false} FirstIsKept(head: seq<Message>, rest: seq<Message>)
    requires |Converted(head)| > 0 && Converted(head)[0].content.Plain?
    ensures |Converted(head + rest)| > 0 && Converted(head + rest)[0] == Converted(head)[0]
  {
    if rest == [] {
      assert head + rest == head;
    } else {
      FirstIsKept(head, rest[..|rest| - 1]);
      assert (head + rest)[..|head + rest| - 1] == head + rest[..|rest| - 1];
    }
  }
}
