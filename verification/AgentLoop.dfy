/** The agent loop: stream a completion, run the tools it asks for, until a final answer. */
module AgentLoop {
  import opened MemoryModel
  import opened Messages

  datatype Risk = Safe | Caution | Danger

  datatype ToolOutput = ToolOutput(content: string, isError: bool)

  /** A registered tool; the handler also sees how many tools ran before, so it may answer differently each time. */
  datatype ToolSpec = ToolSpec(risk: Risk, handler: (nat, Args) -> ToolOutput)

  datatype StreamEvent =
    | TextChunk(delta: string)
    | CallRequest(call: ToolCall)
    | UsageReport(input: nat, output: nat)
    | StreamDone(reason: Option<string>)
    | Ignored

  /** What one provider call yields before it ends or fails. */
  datatype Stream = Stream(events: seq<StreamEvent>, failure: Option<string>)

  datatype Denial = Denial(name: string, blocked: bool)

  datatype Approval = Approval(allowed: bool, note: Option<Denial>)

  /** The collaborators, as arbitrary functions of what they are shown and of how often they were asked. */
  datatype Agent = Agent(
    provider: (nat, seq<Message>) -> Stream,
    tools: map<string, ToolSpec>,
    approve: (nat, ToolCall, Risk) -> Approval)

  datatype Usage = Usage(iterations: int, tokens: int)

  datatype Limits = Limits(maxIterations: int, maxTokens: int)

  datatype ModelCall = ModelCall(input: nat, output: nat, stop: Option<string>)

  datatype ToolRecord = ToolRecord(name: string, args: Args, isError: bool, approved: Option<bool>)

  const DENIED := "(user denied this tool)"
  const BUDGET_NOTE := "(budget exhausted — task stopped here)"

  function UnknownTool(name: string): string { "Unknown tool: " + name }

  // ----- one completion ---------------------------------------------------------

  datatype Intake = Intake(text: string, pending: seq<ToolCall>, input: nat, output: nat,
                           stop: Option<string>, used: Usage)

  function Take(a: Intake, e: StreamEvent): Intake {
    match e
    case TextChunk(d) => a.(text := a.text + d)
    case CallRequest(c) => a.(pending := a.pending + [c])
    case UsageReport(i, o) => a.(input := i, output := o, used := Usage(a.used.iterations + 1, a.used.tokens + i + o))
    case StreamDone(r) => a.(stop := r)
    case Ignored => a
  }

  function TakeAll(a: Intake, es: seq<StreamEvent>): Intake {
    if es == [] then a else Take(TakeAll(a, es[..|es| - 1]), es[|es| - 1])
  }

  function StartIntake(used: Usage): Intake { Intake("", [], 0, 0, None, used) }

  // ----- one round of tool calls ---------------------------------------------------

  /** What tool execution adds to: the trace, the denials, and how often approval and handlers were asked. */
  datatype Desk = Desk(records: seq<ToolRecord>, denied: seq<Denial>, asked: nat, ran: nat)

  function RunTool(agent: Agent, ran: nat, call: ToolCall): ToolOutput {
    if call.name in agent.tools then agent.tools[call.name].handler(ran, call.args)
    else ToolOutput(UnknownTool(call.name), true)
  }

  function RiskOf(agent: Agent, call: ToolCall): Risk {
    if call.name in agent.tools then agent.tools[call.name].risk else Danger
  }

  function AfterCall(agent: Agent, d: Desk, call: ToolCall): (r: (Desk, ToolResult))
    ensures r.1.callId == call.id && |r.0.records| == |d.records| + 1
  {
    var risk := RiskOf(agent, call);
    if risk == Safe then
      var out := RunTool(agent, d.ran, call);
      (d.(records := d.records + [ToolRecord(call.name, call.args, out.isError, None)], ran := d.ran + 1),
       ToolResult(call.id, out.content, out.isError))
    else
      var a := agent.approve(d.asked, call, risk);
      var denied := if a.note.Some? then d.denied + [a.note.value] else d.denied;
      if !a.allowed then
        (d.(records := d.records + [ToolRecord(call.name, call.args, true, Some(false))],
            denied := denied, asked := d.asked + 1),
         ToolResult(call.id, DENIED, true))
      else
        var out := RunTool(agent, d.ran, call);
        (Desk(d.records + [ToolRecord(call.name, call.args, out.isError, Some(true))], denied, d.asked + 1, d.ran + 1),
         ToolResult(call.id, out.content, out.isError))
  }

  function AfterCalls(agent: Agent, d: Desk, calls: seq<ToolCall>): (r: (Desk, seq<ToolResult>))
    ensures |r.1| == |calls| && |r.0.records| == |d.records| + |calls|
    ensures forall i :: 0 <= i < |calls| ==> r.1[i].callId == calls[i].id
  {
    if calls == [] then (d, [])
    else
      var n := |calls| - 1;
      var (d', results) := AfterCalls(agent, d, calls[..n]);
      var (d'', result) := AfterCall(agent, d', calls[n]);
      (d'', results + [result])
  }

  // ----- one pass of the loop and whole turns -----------------------------------------

  datatype TurnState = TurnState(history: seq<Message>, used: Usage, modelCalls: seq<ModelCall>, desk: Desk,
                                 streams: nat)

  datatype Outcome = Answer(text: string) | ProviderFailed(error: string) | StillRunning

  predicate Exhausted(l: Limits, u: Usage) { u.iterations >= l.maxIterations || u.tokens >= l.maxTokens }

  function Pass(agent: Agent, l: Limits, s: TurnState): (TurnState, Outcome) {
    if Exhausted(l, s.used) then (s.(history := s.history + [Say(Assistant, BUDGET_NOTE)]), Answer(BUDGET_NOTE))
    else
      var stream := agent.provider(s.streams, s.history);
      var a := TakeAll(StartIntake(s.used), stream.events);
      var s1 := s.(used := a.used, streams := s.streams + 1);
      if stream.failure.Some? then (s1, ProviderFailed(stream.failure.value))
      else
        var s2 := s1.(modelCalls := s.modelCalls + [ModelCall(a.input, a.output, a.stop)]);
        var reply := Message(Assistant, a.text, a.pending, [], []);
        if a.pending == [] then (s2.(history := s.history + [reply]), Answer(a.text))
        else
          var (desk, results) := AfterCalls(agent, s.desk, a.pending);
          (s2.(history := s.history + [reply, Message(Tool, "", [], results, [])], desk := desk), StillRunning)
  }

  /** At most `passes` rounds of the loop. */
  function Turn(agent: Agent, l: Limits, s: TurnState, passes: nat): (TurnState, Outcome)
    decreases passes
  {
    if passes == 0 then (s, StillRunning)
    else
      var (s', o) := Pass(agent, l, s);
      if o == StillRunning then Turn(agent, l, s', passes - 1) else (s', o)
  }

  // ----- the objects --------------------------------------------------------------------

  class Conversation {
    var messages: seq<Message>

    constructor (messages: seq<Message>)
      ensures this.messages == messages
    {
      this.messages := messages;
    }

    method Append(m: Message)
      modifies this
      ensures messages == old(messages) + [m]
    {
      messages := messages + [m];
    }
  }

  class Budget {
    const limits: Limits
    var used: Usage

    constructor (limits: Limits)
      ensures this.limits == limits && used == Usage(0, 0)
    {
      this.limits := limits;
      used := Usage(0, 0);
    }

    method Record(input: nat, output: nat)
      modifies this
      ensures used == Usage(old(used).iterations + 1, old(used).tokens + input + output)
    {
      used := Usage(used.iterations + 1, used.tokens + input + output);
    }

    predicate IsExhausted()
      reads this
    {
      used.iterations >= limits.maxIterations || used.tokens >= limits.maxTokens
    }
  }

  class Tracer {
    var modelCalls: seq<ModelCall>
    var toolCalls: seq<ToolRecord>

    constructor ()
      ensures modelCalls == [] && toolCalls == []
    {
      modelCalls, toolCalls := [], [];
    }

    method EndModelCall(input: nat, output: nat, stop: Option<string>)
      modifies this
      ensures modelCalls == old(modelCalls) + [ModelCall(input, output, stop)] && toolCalls == old(toolCalls)
    {
      modelCalls := modelCalls + [ModelCall(input, output, stop)];
    }

    method RecordToolCall(name: string, args: Args, isError: bool, approved: Option<bool>)
      modifies this
      ensures toolCalls == old(toolCalls) + [ToolRecord(name, args, isError, approved)] && modelCalls == old(modelCalls)
    {
      toolCalls := toolCalls + [ToolRecord(name, args, isError, approved)];
    }
  }

  class Loop {
    const agent: Agent
    const budget: Budget
    const tracer: Tracer
    /** What the approver closure and the collaborators' own counters hold. */
    var denied: seq<Denial>
    var asked: nat
    var ran: nat
    var streams: nat

    constructor (agent: Agent, budget: Budget, tracer: Tracer)
      ensures this.agent == agent && this.budget == budget && this.tracer == tracer
      ensures denied == [] && asked == ran == streams == 0
    {
      this.agent, this.budget, this.tracer := agent, budget, tracer;
      denied, asked, ran, streams := [], 0, 0, 0;
    }

    ghost function DeskNow(): Desk
      reads this, tracer
    {
      Desk(tracer.toolCalls, denied, asked, ran)
    }

    ghost function StateNow(history: Conversation): TurnState
      reads this, budget, tracer, history
    {
      TurnState(history.messages, budget.used, tracer.modelCalls, DeskNow(), streams)
    }

    /** Drains one completion stream, charging the budget as usage arrives. */
    method Consume(stream: Stream)
      returns (text: string, pending: seq<ToolCall>, input: nat, output: nat, stop: Option<string>)
      modifies budget
      ensures Intake(text, pending, input, output, stop, budget.used)
              == TakeAll(StartIntake(old(budget.used)), stream.events)
    {
      text, pending, input, output, stop := "", [], 0, 0, None;
      for i := 0 to |stream.events|
        invariant Intake(text, pending, input, output, stop, budget.used)
                  == TakeAll(StartIntake(old(budget.used)), stream.events[..i])
      {
        assert stream.events[..i + 1][..i] == stream.events[..i];
        match stream.events[i]
        case TextChunk(d) => text := text + d;
        case CallRequest(c) => pending := pending + [c];
        case UsageReport(inTokens, outTokens) =>
          input, output := inTokens, outTokens;
          budget.Record(input, output);
        case StreamDone(r) => stop := r;
        case Ignored =>
      }
      assert stream.events[..|stream.events|] == stream.events;
    }

    method ExecuteCall(call: ToolCall) returns (result: ToolResult)
      modifies this, tracer
      ensures (DeskNow(), result) == AfterCall(agent, old(DeskNow()), call)
      ensures tracer.modelCalls == old(tracer.modelCalls) && streams == old(streams)
    {
      var risk := RiskOf(agent, call);
      var approved: Option<bool> := None;
      if risk != Safe {
        var a := agent.approve(asked, call, risk);
        asked := asked + 1;
        if a.note.Some? {
          denied := denied + [a.note.value];
        }
        approved := Some(a.allowed);
        if !a.allowed {
          tracer.RecordToolCall(call.name, call.args, true, Some(false));
          return ToolResult(call.id, DENIED, true);
        }
      }
      var out := RunTool(agent, ran, call);
      ran := ran + 1;
      tracer.RecordToolCall(call.name, call.args, out.isError, approved);
      return ToolResult(call.id, out.content, out.isError);
    }

    method ExecuteCalls(pending: seq<ToolCall>) returns (results: seq<ToolResult>)
      modifies this, tracer
      ensures (DeskNow(), results) == AfterCalls(agent, old(DeskNow()), pending)
      ensures tracer.modelCalls == old(tracer.modelCalls) && streams == old(streams)
    {
      results := [];
      for i := 0 to |pending|
        invariant (DeskNow(), results) == AfterCalls(agent, old(DeskNow()), pending[..i])
        invariant tracer.modelCalls == old(tracer.modelCalls) && streams == old(streams)
      {
        assert pending[..i + 1][..i] == pending[..i];
        var result := ExecuteCall(pending[i]);
        results := results + [result];
      }
      assert pending[..|pending|] == pending;
    }

    method RunPass(history: Conversation) returns (outcome: Outcome)
      modifies this, budget, tracer, history
      ensures (StateNow(history), outcome) == Pass(agent, budget.limits, old(StateNow(history)))
    {
      hide AfterCalls, TakeAll;
      if budget.IsExhausted() {
        history.Append(Say(Assistant, BUDGET_NOTE));
        return Answer(BUDGET_NOTE);
      }
      var stream := agent.provider(streams, history.messages);
      streams := streams + 1;
      var text, pending, input, output, stop := Consume(stream);
      if stream.failure.Some? {
        return ProviderFailed(stream.failure.value);
      }
      tracer.EndModelCall(input, output, stop);
      history.Append(Message(Assistant, text, pending, [], []));
      if pending == [] {
        return Answer(text);
      }
      var results := ExecuteCalls(pending);
      ghost var before := history.messages;
      history.Append(Message(Tool, "", [], results, []));
      assert history.messages
             == old(history.messages) + [Message(Assistant, text, pending, [], []), Message(Tool, "", [], results, [])];
      return StillRunning;
    }

    /** The turn, cut off after `passes` rounds of the loop. */
    method RunTurn(history: Conversation, passes: nat) returns (outcome: Outcome)
      modifies this, budget, tracer, history
      ensures (StateNow(history), outcome) == Turn(agent, budget.limits, old(StateNow(history)), passes)
    {
      hide Pass;
      var left := passes;
      while left > 0
        invariant 0 <= left <= passes
        invariant Turn(agent, budget.limits, old(StateNow(history)), passes)
                  == Turn(agent, budget.limits, StateNow(history), left)
      {
        outcome := RunPass(history);
        if outcome != StillRunning {
          return;
        }
        left := left - 1;
      }
      return StillRunning;
    }
  }
}
