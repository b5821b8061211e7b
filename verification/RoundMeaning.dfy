/**
 * What a round of the loop does, said of the provider's stream, the tools and the approver: what
 * each tool is given, what the model is told, and what the conversation then holds.
 */
module RoundMeaning {
  import opened MemoryModel
  import opened Messages
  import opened AgentLoop
  import opened AgentRuns

  // ----- reading a stream ----------------------------------------------------------

  /** The text deltas of a stream, joined in order. */
  function TextOf(es: seq<StreamEvent>): string {
    if es == [] then "" else TextIn(es[0]) + TextOf(es[1..])
  }

  function TextIn(e: StreamEvent): string { if e.TextChunk? then e.delta else "" }

  /** The tool calls a stream asks for, in order. */
  function CallsOf(es: seq<StreamEvent>): seq<ToolCall> {
    if es == [] then [] else CallsIn(es[0]) + CallsOf(es[1..])
  }

  function CallsIn(e: StreamEvent): seq<ToolCall> { if e.CallRequest? then [e.call] else [] }

  /** The last usage report and the last stop reason of a stream. */
  predicate LastUsage(es: seq<StreamEvent>, input: nat, output: nat) {
    if forall i :: 0 <= i < |es| ==> !es[i].UsageReport? then input == output == 0
    else exists i :: 0 <= i < |es| && es[i] == UsageReport(input, output)
           && forall j :: i < j < |es| ==> !es[j].UsageReport?
  }

  predicate LastStop(es: seq<StreamEvent>, stop: Option<string>) {
    if forall i :: 0 <= i < |es| ==> !es[i].StreamDone? then stop == None
    else exists i :: 0 <= i < |es| && es[i] == StreamDone(stop) && forall j :: i < j < |es| ==> !es[j].StreamDone?
  }

  lemma {:induction false} TextOfSnoc(es: seq<StreamEvent>, e: StreamEvent)
    ensures TextOf(es + [e]) == TextOf(es) + TextIn(e)
  {
    hide TextIn;
    if es == [] {
      assert [e][1..] == [] && ([] + [e])[0] == e;
    } else {
      assert (es + [e])[1..] == es[1..] + [e] && (es + [e])[0] == es[0];
      TextOfSnoc(es[1..], e);
    }
  }

  lemma {:induction false} CallsOfSnoc(es: seq<StreamEvent>, e: StreamEvent)
    ensures CallsOf(es + [e]) == CallsOf(es) + CallsIn(e)
  {
    hide CallsIn;
    if es == [] {
      assert [e][1..] == [] && ([] + [e])[0] == e;
    } else {
      assert (es + [e])[1..] == es[1..] + [e] && (es + [e])[0] == es[0];
      CallsOfSnoc(es[1..], e);
    }
  }

  lemma LastUsageSnoc(es: seq<StreamEvent>, e: StreamEvent, input: nat, output: nat)
    requires LastUsage(es, input, output)
    ensures if e.UsageReport? then LastUsage(es + [e], e.input, e.output) else LastUsage(es + [e], input, output)
  {
    var r := es + [e];
    assert forall i :: 0 <= i < |es| ==> r[i] == es[i];
    assert r[|es|] == e;
  }

  lemma LastStopSnoc(es: seq<StreamEvent>, e: StreamEvent, stop: Option<string>)
    requires LastStop(es, stop)
    ensures if e.StreamDone? then LastStop(es + [e], e.reason) else LastStop(es + [e], stop)
  {
    var r := es + [e];
    assert forall i :: 0 <= i < |es| ==> r[i] == es[i];
    assert r[|es|] == e;
  }

  lemma {:induction false} IntakeSays(used: Usage, es: seq<StreamEvent>)
    ensures var a := TakeAll(StartIntake(used), es);
            && a.text == TextOf(es) && a.pending == CallsOf(es)
            && LastUsage(es, a.input, a.output) && LastStop(es, a.stop)
  {
    hide TextOf, CallsOf, LastUsage, LastStop;
    if es == [] {
      NothingRead();
    } else {
      var n := |es| - 1;
      assert es == es[..n] + [es[n]];
      IntakeSays(used, es[..n]);
      var a := TakeAll(StartIntake(used), es[..n]);
      TextOfSnoc(es[..n], es[n]);
      CallsOfSnoc(es[..n], es[n]);
      LastUsageSnoc(es[..n], es[n], a.input, a.output);
      LastStopSnoc(es[..n], es[n], a.stop);
    }
  }

  lemma NothingRead()
    ensures TextOf([]) == "" && CallsOf([]) == [] && LastUsage([], 0, 0) && LastStop([], None)
  {
  }

  // ----- answering the calls ----------------------------------------------------------

  /** How often the approver was asked, and how often a tool or the unknown-tool answer ran, by the records. */
  function AskedIn(rs: seq<ToolRecord>): nat {
    if rs == [] then 0 else AskedIn(rs[..|rs| - 1]) + if rs[|rs| - 1].approved.Some? then 1 else 0
  }

  function RanIn(rs: seq<ToolRecord>): nat {
    if rs == [] then 0 else RanIn(rs[..|rs| - 1]) + if rs[|rs| - 1].approved == Some(false) then 0 else 1
  }

  lemma RecordAdded(rs: seq<ToolRecord>, r: ToolRecord)
    ensures AskedIn(rs + [r]) == AskedIn(rs) + if r.approved.Some? then 1 else 0
    ensures RanIn(rs + [r]) == RanIn(rs) + if r.approved == Some(false) then 0 else 1
  {
    assert (rs + [r])[..|rs|] == rs;
  }

  /** The approver is asked, and handlers see counts, in step with the trace. */
  predicate InStep(d: Desk) { d.asked == AskedIn(d.records) && d.ran == RanIn(d.records) }

  /**
   * One call with its record and its result, after the given records. A tool declared safe runs
   * unasked; any other call, an unknown tool included, runs only if the approver, asked for its
   * declared risk, allows it; a tool runs on the arguments of the call and its output is the result.
   */
  predicate CallAnswered(agent: Agent, before: seq<ToolRecord>, call: ToolCall, rec: ToolRecord, res: ToolResult) {
    var known := call.name in agent.tools;
    var safe := known && agent.tools[call.name].risk == Safe;
    var allowed := safe
      || agent.approve(AskedIn(before), call, if known then agent.tools[call.name].risk else Danger).allowed;
    && rec.name == call.name && rec.args == call.args && res.callId == call.id && rec.isError == res.isError
    && rec.approved == (if safe then None else Some(allowed))
    && if !allowed then res.content == "(user denied this tool)" && res.isError
       else if known then
         var out := agent.tools[call.name].handler(RanIn(before), call.args);
         res.content == out.content && res.isError == out.isError
       else res.content == "Unknown tool: " + call.name && res.isError
  }

  /** Calls answered one by one: a record and a result each, every record after those before it. */
  ghost predicate AllAnswered(agent: Agent, before: seq<ToolRecord>, calls: seq<ToolCall>,
                              after: seq<ToolRecord>, results: seq<ToolResult>) {
    && |results| == |calls| && |after| == |before| + |calls| && after[..|before|] == before
    && forall i :: 0 <= i < |calls| ==>
         CallAnswered(agent, after[..|before| + i], calls[i], after[|before| + i], results[i])
  }

  lemma OneAnswered(agent: Agent, d: Desk, call: ToolCall)
    requires InStep(d)
    ensures var (d', res) := AfterCall(agent, d, call);
            && |d'.records| == |d.records| + 1 && d'.records[..|d.records|] == d.records && InStep(d')
            && CallAnswered(agent, d.records, call, d'.records[|d.records|], res)
  {
    hide AskedIn, RanIn;
    var (d', res) := AfterCall(agent, d, call);
    var rec := d'.records[|d.records|];
    assert d'.records == d.records + [rec];
    RecordAdded(d.records, rec);
  }

  lemma {:induction false} CallsAnswered(agent: Agent, d: Desk, calls: seq<ToolCall>)
    requires InStep(d)
    ensures var (d', results) := AfterCalls(agent, d, calls);
            InStep(d') && AllAnswered(agent, d.records, calls, d'.records, results)
  {
    hide AfterCall, InStep, CallAnswered;
    if calls == [] {
      assert d.records[..|d.records|] == d.records;
    } else {
      var n, b := |calls| - 1, |d.records|;
      var (d1, rs1) := AfterCalls(agent, d, calls[..n]);
      CallsAnswered(agent, d, calls[..n]);
      OneAnswered(agent, d1, calls[n]);
      var (d2, rs2) := AfterCalls(agent, d, calls);
      assert d2.records[..b] == d.records by { assert d2.records[..b + n][..b] == d2.records[..b]; }
      forall i | 0 <= i < |calls|
        ensures CallAnswered(agent, d2.records[..b + i], calls[i], d2.records[b + i], rs2[i])
      {
        assert d2.records[..b + n] == d1.records;
        if i < n {
          assert d2.records[..b + i] == d1.records[..b + i] && d2.records[b + i] == d1.records[b + i];
        }
      }
    }
  }

  // ----- whole rounds ------------------------------------------------------------------

  function Reply(es: seq<StreamEvent>): Message { Message(Assistant, TextOf(es), CallsOf(es), [], []) }

  /** The model call is traced with what the stream reported last. */
  predicate Traced(s: TurnState, s': TurnState, es: seq<StreamEvent>) {
    && |s'.modelCalls| == |s.modelCalls| + 1 && s'.modelCalls[..|s.modelCalls|] == s.modelCalls
    && var m := s'.modelCalls[|s.modelCalls|]; LastUsage(es, m.input, m.output) && LastStop(es, m.stop)
  }

  /**
   * One round. With the budget exhausted the turn ends with a note. Otherwise the provider is shown
   * the whole conversation; if it fails nothing is added; if it asks for no tool its text is the
   * answer; and if it does, the conversation grows by its message and by one message answering every
   * call in order.
   */
  ghost predicate IsRound(agent: Agent, l: Limits, s: TurnState, s': TurnState, o: Outcome) {
    var stream := agent.provider(s.streams, s.history);
    if s.used.iterations >= l.maxIterations || s.used.tokens >= l.maxTokens then
      var note := "(budget exhausted — task stopped here)";
      o == Answer(note) && s' == s.(history := s.history + [Message(Assistant, note, [], [], [])])
    else if stream.failure.Some? then
      && o == ProviderFailed(stream.failure.value)
      && s'.history == s.history && s'.desk == s.desk && s'.modelCalls == s.modelCalls
    else if CallsOf(stream.events) == [] then
      && o == Answer(TextOf(stream.events)) && s'.history == s.history + [Reply(stream.events)]
      && s'.desk == s.desk && Traced(s, s', stream.events)
    else
      && o == StillRunning && Traced(s, s', stream.events)
      && |s'.history| == |s.history| + 2 && s'.history[..|s.history|] == s.history
      && s'.history[|s.history|] == Reply(stream.events)
      && var answer := s'.history[|s.history| + 1];
         && answer == Message(Tool, "", [], answer.results, [])
         && AllAnswered(agent, s.desk.records, CallsOf(stream.events), s'.desk.records, answer.results)
  }

  lemma PassIsRound(agent: Agent, l: Limits, s: TurnState)
    requires InStep(s.desk)
    ensures var (s', o) := Pass(agent, l, s); IsRound(agent, l, s, s', o) && InStep(s'.desk)
  {
    hide AfterCalls, TakeAll, TextOf, CallsOf, LastUsage, LastStop, AllAnswered, InStep;
    var stream := agent.provider(s.streams, s.history);
    IntakeSays(s.used, stream.events);
    CallsAnswered(agent, s.desk, CallsOf(stream.events));
  }

  /**
   * Every round of every turn is such a round: whatever the provider asks for, each tool is given
   * the arguments of its own call, and the model is told what that tool answered, under that call's
   * id, or that it was refused or unknown.
   */
  lemma {:induction false} EveryRound(agent: Agent, l: Limits, s: TurnState, k: nat)
    requires InStep(s.desk) && Turn(agent, l, s, k).1 == StillRunning
    ensures var (at, next) := (Turn(agent, l, s, k).0, Turn(agent, l, s, k + 1));
            InStep(at.desk) && IsRound(agent, l, at, next.0, next.1)
    decreases k
  {
    hide Pass, IsRound, InStep;
    PassIsRound(agent, l, s);
    var (s', o) := Pass(agent, l, s);
    if k == 0 {
      assert Turn(agent, l, s, 1) == (s', o);
    } else {
      EveryRound(agent, l, s', k - 1);
    }
  }
}
