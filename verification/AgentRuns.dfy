/** What whole turns of the agent loop keep, for every provider, tool set and approver. */
module AgentRuns {
  import opened MemoryModel
  import opened Messages
  import opened AgentLoop
  import opened RiskPolicy
  import WireFormats

  // ----- the conversation protocol ---------------------------------------------

  lemma ResultsAnswer(agent: Agent, d: Desk, calls: seq<ToolCall>)
    ensures ResultIds(AfterCalls(agent, d, calls).1) == CallIds(calls)
  {
  }

  lemma PassKeepsProtocol(agent: Agent, l: Limits, s: TurnState)
    requires Answered(s.history)
    ensures Answered(Pass(agent, l, s).0.history)
  {
    hide AfterCalls, TakeAll;
    if Exhausted(l, s.used) {
      AnsweredSay(s.history, Say(Assistant, BUDGET_NOTE));
    } else {
      var stream := agent.provider(s.streams, s.history);
      var a := TakeAll(StartIntake(s.used), stream.events);
      var reply := Message(Assistant, a.text, a.pending, [], []);
      if stream.failure.Some? {
      } else if a.pending == [] {
        AnsweredSay(s.history, reply);
      } else {
        var results := AfterCalls(agent, s.desk, a.pending).1;
        ResultsAnswer(agent, s.desk, a.pending);
        AnsweredRound(s.history, reply, Message(Tool, "", [], results, []));
      }
    }
  }

  /**
   * At every loop head, return and provider error each assistant message with tool calls is
   * followed at once by the tool message answering them, id by id in order; and the history only grows.
   */
  lemma {:induction false} TurnKeepsProtocol(agent: Agent, l: Limits, s: TurnState, passes: nat)
    requires Answered(s.history)
    ensures Answered(Turn(agent, l, s, passes).0.history) && s.history <= Turn(agent, l, s, passes).0.history
    decreases passes
  {
    if passes == 0 {
    } else {
      PassKeepsProtocol(agent, l, s);
      var (s', o) := Pass(agent, l, s);
      if o == StillRunning { TurnKeepsProtocol(agent, l, s', passes - 1); }
    }
  }

  /**
   * Whatever a turn makes of a conversation travels: over the content-block wire every message
   * reads back exactly, and over the chat wire the whole history does, up to the error flags.
   */
  lemma TurnHistoryTravels(agent: Agent, l: Limits, s: TurnState, passes: nat, j: WireFormats.Json)
    requires Answered(s.history) && WireFormats.ReadsBack(j)
    ensures var h := Turn(agent, l, s, passes).0.history;
            && WireFormats.ReadChat(j, WireFormats.ChatWire(j, h)) == WireFormats.ErasedAll(h)
            && forall i :: 0 <= i < |h| ==> WireFormats.FromBlocks(WireFormats.BlockWire(h)[i]) == h[i]
  {
    var h := Turn(agent, l, s, passes).0.history;
    TurnKeepsProtocol(agent, l, s, passes);
    hide Turn, Answered;
    ProtocolFacts(h);
    WireFormats.AnsweredIsReadable(h);
    WireFormats.ChatRoundTrip(j, h);
    forall i | 0 <= i < |h| ensures WireFormats.FromBlocks(WireFormats.BlockWire(h)[i]) == h[i] {
      WireFormats.BlockRoundTrip(h[i]);
    }
  }

  lemma ProtocolFacts(h: seq<Message>)
    requires Answered(h)
    ensures forall i :: 0 <= i < |h| ==> WellFormed(h[i])
  {
  }

  // ----- termination and accounting ----------------------------------------------

  function UsageCount(es: seq<StreamEvent>): nat {
    if es == [] then 0 else UsageCount(es[..|es| - 1]) + if es[|es| - 1].UsageReport? then 1 else 0
  }

  function UsageTokens(es: seq<StreamEvent>): nat {
    if es == [] then 0
    else UsageTokens(es[..|es| - 1])
         + if es[|es| - 1].UsageReport? then es[|es| - 1].input + es[|es| - 1].output else 0
  }

  /** A stream charges one iteration and its tokens per usage report. */
  lemma {:induction false} StreamCharges(used: Usage, es: seq<StreamEvent>)
    ensures var a := TakeAll(StartIntake(used), es);
            && a.used == Usage(used.iterations + UsageCount(es), used.tokens + UsageTokens(es))
            && (UsageCount(es) == 0 ==> a.input == a.output == 0)
            && (UsageCount(es) == 1 ==> a.input + a.output == UsageTokens(es))
  {
    if es == [] {
    } else {
      var t := es[..|es| - 1];
      StreamCharges(used, t);
      if UsageCount(t) == 0 { NoUsageNoTokens(t); }
    }
  }

  lemma {:induction false} NoUsageNoTokens(es: seq<StreamEvent>)
    requires UsageCount(es) == 0
    ensures UsageTokens(es) == 0
  {
    if es == [] {
    } else {
      NoUsageNoTokens(es[..|es| - 1]);
    }
  }

  /** Every stream that does not fail reports usage at least once. */
  ghost predicate ReportsUsage(agent: Agent) {
    forall n, h :: agent.provider(n, h).failure.Some? || UsageCount(agent.provider(n, h).events) >= 1
  }

  /** Model calls the budget still allows. */
  function Remaining(l: Limits, u: Usage): nat {
    if u.iterations >= l.maxIterations then 0 else l.maxIterations - u.iterations
  }

  /**
   * With a provider that reports usage the turn ends within the iterations left: after that many
   * passes and one more it has an answer or an error, having called the model at most that often.
   */
  lemma {:induction false} TurnEnds(agent: Agent, l: Limits, s: TurnState, passes: nat)
    requires ReportsUsage(agent)
    ensures Turn(agent, l, s, passes).0.streams - s.streams <= Remaining(l, s.used)
    ensures passes > Remaining(l, s.used) ==> Turn(agent, l, s, passes).1 != StillRunning
    decreases passes
  {
    hide AfterCalls, TakeAll;
    if passes > 0 && !Exhausted(l, s.used) {
      StreamCharges(s.used, agent.provider(s.streams, s.history).events);
      var (s', o) := Pass(agent, l, s);
      assert agent.provider(s.streams, s.history).failure.Some? || s'.used.iterations >= s.used.iterations + 1;
      if o == StillRunning { TurnEnds(agent, l, s', passes - 1); }
    }
  }

  /** Whether a stream asks for a tool, so that the loop goes on. */
  predicate AsksForTool(st: Stream) {
    st.failure.None? && exists i :: 0 <= i < |st.events| && st.events[i].CallRequest?
  }

  /** What the n-th call brings: its usage reports, their tokens, and whether it asks for a tool. */
  datatype Script = Script(reports: nat -> nat, tokens: nat -> nat, asks: nat -> bool)

  predicate Plays(st: Stream, sc: Script, n: nat) {
    && UsageCount(st.events) == sc.reports(n)
    && UsageTokens(st.events) == sc.tokens(n)
    && (AsksForTool(st) <==> sc.asks(n))
  }

  /** The sum over k calls, numbered from `first`. */
  function Total(f: nat -> nat, first: nat, k: nat): nat
    decreases k
  {
    if k == 0 then 0 else f(first) + Total(f, first + 1, k - 1)
  }

  /** The k-th call from here is still within both limits, and asks for a tool. */
  predicate Continues(l: Limits, s: TurnState, sc: Script, k: nat) {
    && s.used.iterations + Total(sc.reports, s.streams, k) < l.maxIterations
    && s.used.tokens + Total(sc.tokens, s.streams, k) < l.maxTokens
    && sc.asks(s.streams + k)
  }

  lemma {:induction false} PendingExactly(a: Intake, es: seq<StreamEvent>)
    ensures TakeAll(a, es).pending != [] <==>
              a.pending != [] || exists i :: 0 <= i < |es| && es[i].CallRequest?
  {
    if es == [] {
    } else {
      var n := |es| - 1;
      PendingExactly(a, es[..n]);
      assert forall i :: 0 <= i < n ==> es[..n][i] == es[i];
    }
  }

  lemma PassContinues(agent: Agent, l: Limits, s: TurnState, sc: Script)
    requires Plays(agent.provider(s.streams, s.history), sc, s.streams)
    ensures var (s', o) := Pass(agent, l, s);
            && (o == StillRunning <==> Continues(l, s, sc, 0))
            && (o == StillRunning ==>
                  && s'.streams == s.streams + 1
                  && s'.used.iterations == s.used.iterations + sc.reports(s.streams)
                  && s'.used.tokens == s.used.tokens + sc.tokens(s.streams))
  {
    hide AfterCalls, TakeAll, UsageCount, UsageTokens;
    var stream := agent.provider(s.streams, s.history);
    StreamCharges(s.used, stream.events);
    PendingExactly(StartIntake(s.used), stream.events);
  }

  /** The script holds of the calls this turn makes, whatever the provider would answer elsewhere. */
  ghost predicate FollowsAlong(agent: Agent, l: Limits, s: TurnState, passes: nat, sc: Script) {
    forall k: nat :: k < passes ==> PlaysAt(agent, Turn(agent, l, s, k), sc)
  }

  predicate PlaysAt(agent: Agent, at: (TurnState, Outcome), sc: Script) {
    at.1 == StillRunning ==> Plays(agent.provider(at.0.streams, at.0.history), sc, at.0.streams)
  }

  /**
   * Exactly when a turn ends: it is still running after some passes iff before each of them the
   * reports and tokens of the calls so far left both limits unreached and the call asked for a
   * tool. Usage alone stops a provider that keeps asking.
   */
  lemma {:induction false} TurnEndsExactly(agent: Agent, l: Limits, s: TurnState, passes: nat, sc: Script)
    requires FollowsAlong(agent, l, s, passes, sc)
    ensures Turn(agent, l, s, passes).1 == StillRunning <==> forall k: nat :: k < passes ==> Continues(l, s, sc, k)
    ensures Turn(agent, l, s, passes).1 == StillRunning ==> Turn(agent, l, s, passes).0.streams == s.streams + passes
    decreases passes
  {
    hide Pass, Continues, Plays;
    if passes == 0 {
    } else {
      assert PlaysAt(agent, Turn(agent, l, s, 0), sc);
      PassContinues(agent, l, s, sc);
      var (s', o) := Pass(agent, l, s);
      if o == StillRunning {
        forall k: nat | k < passes - 1 ensures PlaysAt(agent, Turn(agent, l, s', k), sc) {
          assert PlaysAt(agent, Turn(agent, l, s, k + 1), sc);
        }
        TurnEndsExactly(agent, l, s', passes - 1, sc);
        forall k: nat ensures Continues(l, s', sc, k) <==> Continues(l, s, sc, k + 1) {
          ContinuesShift(l, s, s', sc, k);
        }
        ShiftedAll(l, s, s', sc, passes);
      }
    }
  }

  /** The stream the turn gets from the n-th call. */
  function OwnStream(agent: Agent, l: Limits, s: TurnState, n: nat): Stream {
    agent.provider(n, Turn(agent, l, s, if n < s.streams then 0 else n - s.streams).0.history)
  }

  /** Every turn of every provider has a script: what its own calls brought, by their number. */
  function OwnScript(agent: Agent, l: Limits, s: TurnState): Script {
    Script((n: nat) => UsageCount(OwnStream(agent, l, s, n).events),
           (n: nat) => UsageTokens(OwnStream(agent, l, s, n).events),
           (n: nat) => AsksForTool(OwnStream(agent, l, s, n)))
  }

  lemma {:induction false} RunningStreams(agent: Agent, l: Limits, s: TurnState, k: nat)
    requires Turn(agent, l, s, k).1 == StillRunning
    ensures Turn(agent, l, s, k).0.streams == s.streams + k
    decreases k
  {
    hide AfterCalls, TakeAll;
    if k == 0 {
    } else {
      RunningStreams(agent, l, Pass(agent, l, s).0, k - 1);
    }
  }

  /** So the condition is exact for any provider, even one that answers by the history it is shown. */
  lemma AnyTurnEndsExactly(agent: Agent, l: Limits, s: TurnState, passes: nat)
    ensures Turn(agent, l, s, passes).1 == StillRunning <==>
              forall k: nat :: k < passes ==> Continues(l, s, OwnScript(agent, l, s), k)
  {
    hide Turn, Continues, OwnScript, PlaysAt;
    var sc := OwnScript(agent, l, s);
    forall k: nat | k < passes ensures PlaysAt(agent, Turn(agent, l, s, k), sc) {
      OwnScriptPlays(agent, l, s, k);
    }
    TurnEndsExactly(agent, l, s, passes, sc);
  }

  lemma OwnScriptPlays(agent: Agent, l: Limits, s: TurnState, k: nat)
    ensures PlaysAt(agent, Turn(agent, l, s, k), OwnScript(agent, l, s))
  {
    hide Turn, UsageCount, UsageTokens, AsksForTool;
    if Turn(agent, l, s, k).1 == StillRunning {
      RunningStreams(agent, l, s, k);
      var at := Turn(agent, l, s, k).0;
      assert OwnStream(agent, l, s, at.streams) == agent.provider(at.streams, at.history);
      hide OwnStream;
      assert Plays(agent.provider(at.streams, at.history), OwnScript(agent, l, s), at.streams);
    }
  }

  lemma ContinuesShift(l: Limits, s: TurnState, s': TurnState, sc: Script, k: nat)
    requires s'.streams == s.streams + 1
    requires s'.used.iterations == s.used.iterations + sc.reports(s.streams)
    requires s'.used.tokens == s.used.tokens + sc.tokens(s.streams)
    ensures Continues(l, s', sc, k) <==> Continues(l, s, sc, k + 1)
  {
  }

  lemma ShiftedAll(l: Limits, s: TurnState, s': TurnState, sc: Script, passes: nat)
    requires passes > 0 && Continues(l, s, sc, 0)
    requires forall k: nat :: Continues(l, s', sc, k) <==> Continues(l, s, sc, k + 1)
    ensures (forall k: nat :: k < passes - 1 ==> Continues(l, s', sc, k))
            <==> (forall k: nat :: k < passes ==> Continues(l, s, sc, k))
  {
    hide Continues;
    if forall k: nat :: k < passes - 1 ==> Continues(l, s', sc, k) {
      forall k: nat | k < passes ensures Continues(l, s, sc, k) {
        if k > 0 { assert Continues(l, s', sc, k - 1); }
      }
    }
  }

  /** Without usage the limits are never reached: a provider that only ever asks for a tool never ends a turn. */
  lemma WithoutUsageNeverEnds(agent: Agent, l: Limits, s: TurnState, passes: nat)
    requires forall n, h :: UsageCount(agent.provider(n, h).events) == 0 && AsksForTool(agent.provider(n, h))
    requires !Exhausted(l, s.used)
    ensures Turn(agent, l, s, passes).1 == StillRunning && Turn(agent, l, s, passes).0.streams == s.streams + passes
  {
    hide AsksForTool, Turn;
    var sc := Script(n => 0, n => 0, n => true);
    forall k: nat | k < passes ensures PlaysAt(agent, Turn(agent, l, s, k), sc) {
      var at := Turn(agent, l, s, k).0;
      NoUsageNoTokens(agent.provider(at.streams, at.history).events);
    }
    forall k: nat ensures Continues(l, s, sc, k) {
      TotalNothing(sc.reports, s.streams, k);
      TotalNothing(sc.tokens, s.streams, k);
    }
    TurnEndsExactly(agent, l, s, passes, sc);
  }

  lemma {:induction false} TotalNothing(f: nat -> nat, first: nat, k: nat)
    requires forall n :: f(n) == 0
    ensures Total(f, first, k) == 0
    decreases k
  {
    if k == 0 {
    } else {
      TotalNothing(f, first + 1, k - 1);
    }
  }

  /**
   * The token limit is overshot by at most the last call: if the turn called the model, it went
   * through a state `last`, after k rounds, in which neither limit was reached, and the one call
   * made there brought all the tokens that came after.
   */
  lemma {:induction false} OvershootIsOneCall(agent: Agent, l: Limits, s: TurnState, passes: nat)
    returns (k: nat, last: TurnState)
    ensures var f := Turn(agent, l, s, passes).0;
            f.streams > s.streams ==>
              && k < passes && Turn(agent, l, s, k) == (last, StillRunning)
              && !Exhausted(l, last.used) && last.streams + 1 == f.streams
              && f.used.tokens == last.used.tokens + UsageTokens(agent.provider(last.streams, last.history).events)
    ensures Turn(agent, l, s, passes).0.streams >= s.streams
    ensures Turn(agent, l, s, passes).0.streams == s.streams ==> Turn(agent, l, s, passes).0.used == s.used
    decreases passes
  {
    hide AfterCalls, TakeAll, UsageTokens, UsageCount;
    k, last := 0, s;
    if passes > 0 && !Exhausted(l, s.used) {
      StreamCharges(s.used, agent.provider(s.streams, s.history).events);
      var (s', o) := Pass(agent, l, s);
      if o == StillRunning {
        k, last := OvershootIsOneCall(agent, l, s', passes - 1);
        if Turn(agent, l, s', passes - 1).0.streams == s'.streams {
          k, last := 0, s;
        } else {
          k := k + 1;
        }
      }
    }
  }

  function TracedTokens(cs: seq<ModelCall>): nat {
    if cs == [] then 0 else TracedTokens(cs[..|cs| - 1]) + cs[|cs| - 1].input + cs[|cs| - 1].output
  }

  function ResultCount(h: seq<Message>): nat {
    if h == [] then 0 else ResultCount(h[..|h| - 1]) + |h[|h| - 1].results|
  }

  lemma TracedAppend(cs: seq<ModelCall>, c: ModelCall)
    ensures TracedTokens(cs + [c]) == TracedTokens(cs) + c.input + c.output
  {
  }

  lemma ResultAppend(h: seq<Message>, m: Message)
    ensures ResultCount(h + [m]) == ResultCount(h) + |m.results|
  {
  }

  /** Exactly one usage report in every stream that does not fail. */
  ghost predicate ReportsUsageOnce(agent: Agent) {
    forall n, h :: agent.provider(n, h).failure.Some? || UsageCount(agent.provider(n, h).events) == 1
  }

  lemma PassAccounts(agent: Agent, l: Limits, s: TurnState)
    ensures var (s', o) := Pass(agent, l, s);
            && |s'.desk.records| - |s.desk.records| == ResultCount(s'.history) - ResultCount(s.history)
            && (ReportsUsageOnce(agent) && !o.ProviderFailed? ==>
                  && TracedTokens(s'.modelCalls) - TracedTokens(s.modelCalls) == s'.used.tokens - s.used.tokens
                  && |s'.modelCalls| - |s.modelCalls| == s'.used.iterations - s.used.iterations)
  {
    hide AfterCalls, TakeAll, TracedTokens, ResultCount, UsageTokens, UsageCount;
    if Exhausted(l, s.used) {
      ResultAppend(s.history, Say(Assistant, BUDGET_NOTE));
    } else {
      var stream := agent.provider(s.streams, s.history);
      var a := TakeAll(StartIntake(s.used), stream.events);
      StreamCharges(s.used, stream.events);
      if stream.failure.None? {
        TracedAppend(s.modelCalls, ModelCall(a.input, a.output, a.stop));
        var reply := Message(Assistant, a.text, a.pending, [], []);
        ResultAppend(s.history, reply);
        if a.pending != [] {
          var answer := Message(Tool, "", [], AfterCalls(agent, s.desk, a.pending).1, []);
          ResultAppend(s.history + [reply], answer);
          assert s.history + [reply] + [answer] == s.history + [reply, answer];
        }
      }
    }
  }

  /**
   * Conservation: every traced tool call is one tool result of the conversation; and with one
   * usage report per stream, unless the provider failed, the traced tokens and model calls are
   * exactly what the budget was charged.
   */
  lemma {:induction false} TurnAccounts(agent: Agent, l: Limits, s: TurnState, passes: nat)
    ensures var (f, o) := Turn(agent, l, s, passes);
            && |f.desk.records| - |s.desk.records| == ResultCount(f.history) - ResultCount(s.history)
            && (ReportsUsageOnce(agent) && !o.ProviderFailed? ==>
                  && TracedTokens(f.modelCalls) - TracedTokens(s.modelCalls) == f.used.tokens - s.used.tokens
                  && |f.modelCalls| - |s.modelCalls| == f.used.iterations - s.used.iterations)
    decreases passes
  {
    hide Pass, TracedTokens, ResultCount;
    if passes == 0 {
    } else {
      PassAccounts(agent, l, s);
      var (s', o) := Pass(agent, l, s);
      if o == StillRunning { TurnAccounts(agent, l, s', passes - 1); }
    }
  }

  // ----- policies over whole runs -------------------------------------------------

  /** P is an invariant of executing one call. */
  ghost predicate KeptByCalls(agent: Agent, p: Desk -> bool) {
    forall d, call :: p(d) ==> p(AfterCall(agent, d, call).0)
  }

  lemma {:induction false} CallsKeep(agent: Agent, p: Desk -> bool, d: Desk, calls: seq<ToolCall>)
    requires KeptByCalls(agent, p) && p(d)
    ensures p(AfterCalls(agent, d, calls).0)
  {
    hide AfterCall;
    if calls == [] {
    } else {
      CallsKeep(agent, p, d, calls[..|calls| - 1]);
    }
  }

  /** What every tool call keeps, every turn keeps. */
  lemma {:induction false} TurnKeeps(agent: Agent, p: Desk -> bool, l: Limits, s: TurnState, passes: nat)
    requires KeptByCalls(agent, p) && p(s.desk)
    ensures p(Turn(agent, l, s, passes).0.desk)
    decreases passes
  {
    hide AfterCall, AfterCalls, TakeAll, KeptByCalls;
    if passes == 0 {
    } else {
      var (s', o) := Pass(agent, l, s);
      if o == StillRunning {
        var a := TakeAll(StartIntake(s.used), agent.provider(s.streams, s.history).events);
        CallsKeep(agent, p, s.desk, a.pending);
        TurnKeeps(agent, p, l, s', passes - 1);
      }
    }
  }

  predicate Executed(r: ToolRecord) { r.approved != Some(false) }

  function RefusedNames(rs: seq<ToolRecord>): seq<string> {
    if rs == [] then []
    else RefusedNames(rs[..|rs| - 1]) + if Executed(rs[|rs| - 1]) then [] else [rs[|rs| - 1].name]
  }

  function DenialNames(ds: seq<Denial>): seq<string> { seq(|ds|, i requires 0 <= i < |ds| => ds[i].name) }

  /** The denied list names exactly the refused calls, each once, in order, and a refused call is an error. */
  predicate DenialsMatch(d: Desk) {
    && DenialNames(d.denied) == RefusedNames(d.records)
    && forall i :: 0 <= i < |d.records| && !Executed(d.records[i]) ==> d.records[i].isError
  }

  predicate SafeTool(tools: map<string, ToolSpec>, r: ToolRecord) { r.name in tools && tools[r.name].risk == Safe }

  predicate BlockedRecord(sc: Scanner, r: ToolRecord) { Blocked(sc, ToolCall("", r.name, r.args)) }

  predicate SafeToolsOnly(tools: map<string, ToolSpec>, d: Desk) {
    forall i :: 0 <= i < |d.records| && Executed(d.records[i]) ==> SafeTool(tools, d.records[i])
  }

  predicate NothingBlockedRan(sc: Scanner, tools: map<string, ToolSpec>, d: Desk) {
    forall i :: 0 <= i < |d.records| && Executed(d.records[i])
                ==> SafeTool(tools, d.records[i]) || !BlockedRecord(sc, d.records[i])
  }

  function ExecutedCount(rs: seq<ToolRecord>): nat {
    if rs == [] then 0 else ExecutedCount(rs[..|rs| - 1]) + if Executed(rs[|rs| - 1]) then 1 else 0
  }

  lemma ExecutedAppend(rs: seq<ToolRecord>, r: ToolRecord)
    ensures ExecutedCount(rs + [r]) == ExecutedCount(rs) + if Executed(r) then 1 else 0
  {
  }

  /**
   * A refused call runs nothing, and every other call runs once: in any turn the tools ran as often as the
   * trace says.
   */
  lemma RefusedNeverRuns(agent: Agent, l: Limits, s: TurnState, passes: nat)
    requires s.desk.ran == ExecutedCount(s.desk.records)
    ensures var d := Turn(agent, l, s, passes).0.desk; d.ran == ExecutedCount(d.records)
  {
    hide Turn;
    var p := (d: Desk) => d.ran == ExecutedCount(d.records);
    forall d, call | p(d) ensures p(AfterCall(agent, d, call).0) {
      var d' := AfterCall(agent, d, call).0;
      ExecutedAppend(d.records, d'.records[|d.records|]);
    }
    TurnKeeps(agent, p, l, s, passes);
  }

  lemma RefusedAppend(rs: seq<ToolRecord>, r: ToolRecord)
    ensures RefusedNames(rs + [r]) == RefusedNames(rs) + if Executed(r) then [] else [r.name]
  {
  }

  lemma OneCallRecord(sc: Scanner, autonomy: Autonomy, agent: Agent, d: Desk, call: ToolCall)
    requires agent.approve == PolicyApprove(sc, autonomy)
    ensures var d' := AfterCall(agent, d, call).0;
            exists r :: d'.records == d.records + [r] && PolicyRecord(sc, autonomy, agent, call, r)
              && DenialNames(d'.denied) == DenialNames(d.denied) + if Executed(r) then [] else [call.name]
  {
    var d' := AfterCall(agent, d, call).0;
    var r := d'.records[|d.records|];
    assert d'.records == d.records + [r];
    assert Findings(sc, call) == Findings(sc, ToolCall("", call.name, call.args));
    if !Executed(r) {
      assert DenialNames(d'.denied) == DenialNames(d.denied) + [call.name];
    }
    assert PolicyRecord(sc, autonomy, agent, call, r);
  }

  /** What the record of one call says under the policy. */
  predicate PolicyRecord(sc: Scanner, autonomy: Autonomy, agent: Agent, call: ToolCall, r: ToolRecord) {
    && r.name == call.name
    && (!Executed(r) ==> r.isError)
    && (Executed(r) ==> SafeTool(agent.tools, r) || (autonomy == Authorized && !BlockedRecord(sc, r)))
  }

  lemma OneCallPolicy(sc: Scanner, autonomy: Autonomy, agent: Agent, d: Desk, call: ToolCall)
    requires agent.approve == PolicyApprove(sc, autonomy)
    ensures var d' := AfterCall(agent, d, call).0;
            && (DenialsMatch(d) ==> DenialsMatch(d'))
            && (autonomy == SafeOnly && SafeToolsOnly(agent.tools, d) ==> SafeToolsOnly(agent.tools, d'))
            && (NothingBlockedRan(sc, agent.tools, d) ==> NothingBlockedRan(sc, agent.tools, d'))
  {
    hide AfterCall, DenialNames, RefusedNames, BlockedRecord, SafeTool;
    OneCallRecord(sc, autonomy, agent, d, call);
    var d' := AfterCall(agent, d, call).0;
    var r :| d'.records == d.records + [r] && PolicyRecord(sc, autonomy, agent, call, r)
             && DenialNames(d'.denied) == DenialNames(d.denied) + if Executed(r) then [] else [call.name];
    RefusedAppend(d.records, r);
  }

  /**
   * Exactly which calls an unattended run executes. A tool declared safe runs unasked, even when
   * the call is irreversible or carries a blocked command; any other call runs only under
   * `authorized`, and only when nothing blocks it.
   */
  lemma PolicyExactly(sc: Scanner, autonomy: Autonomy, agent: Agent, d: Desk, call: ToolCall)
    requires agent.approve == PolicyApprove(sc, autonomy)
    ensures var r := AfterCall(agent, d, call).0.records[|d.records|];
            && r.name == call.name && r.args == call.args
            && (Executed(r) <==> RiskOf(agent, call) == Safe || (autonomy == Authorized && !Blocked(sc, call)))
            && (r.approved == None <==> RiskOf(agent, call) == Safe)
            && AfterCall(agent, d, call).0.denied
               == d.denied + if Executed(r) then [] else [Denial(call.name, Blocked(sc, call))]
  {
  }

  /**
   * The module's promise that irreversible actions are always confirmed fails in the loop: a tool
   * declared safe runs unasked in a safe-only run, on a call that is irreversible and blocked.
   */
  lemma IrreversibleCallRunsUnasked() returns (sc: Scanner, agent: Agent, call: ToolCall)
    ensures agent.approve == PolicyApprove(sc, SafeOnly) && Irreversible(sc, call) && Blocked(sc, call)
    ensures RiskOf(agent, call) == Safe
    ensures forall d :: AfterCall(agent, d, call).0.records
                        == d.records + [ToolRecord(call.name, call.args, false, None)]
                        && AfterCall(agent, d, call).0.ran == d.ran + 1
  {
    sc := Scanner(text => [Finding("destructive", true)], (name, args) => name == "wipe");
    var tool := ToolSpec(Safe, (ran, args) => ToolOutput("done", false));
    agent := Agent((n, h) => Stream([], None), map["wipe" := tool], PolicyApprove(sc, SafeOnly));
    call := ToolCall("1", "wipe", map["command" := Text("rm -rf /")]);
    assert Findings(sc, call)[0].blocking;
  }

  /** The start of a scheduled run: one user message, a fresh budget, trace and denial list. */
  function ScheduledStart(prompt: string): TurnState {
    TurnState([Say(User, prompt)], Usage(0, 0), [], Desk([], [], 0, 0), 0)
  }

  const SCHEDULED_LIMITS := Limits(20, 500000)

  /**
   * A scheduled run obeys its policy, whatever the provider asks for: the denied list names the
   * refused calls, once each and in order; under safe-only nothing executes but tools declared
   * safe; under either policy no executed call of a tool not declared safe has a blocking finding.
   */
  lemma ScheduledRunObeysPolicy(sc: Scanner, autonomy: Autonomy, agent: Agent, prompt: string, passes: nat)
    requires agent.approve == PolicyApprove(sc, autonomy)
    ensures var d := Turn(agent, SCHEDULED_LIMITS, ScheduledStart(prompt), passes).0.desk;
            && DenialsMatch(d)
            && (autonomy == SafeOnly ==> SafeToolsOnly(agent.tools, d))
            && NothingBlockedRan(sc, agent.tools, d)
  {
    hide AfterCall;
    var p := (d: Desk) => DenialsMatch(d) && (autonomy == SafeOnly ==> SafeToolsOnly(agent.tools, d))
                          && NothingBlockedRan(sc, agent.tools, d);
    forall d, call | p(d) ensures p(AfterCall(agent, d, call).0) {
      OneCallPolicy(sc, autonomy, agent, d, call);
    }
    TurnKeeps(agent, p, SCHEDULED_LIMITS, ScheduledStart(prompt), passes);
  }

  datatype ScheduledResult = ScheduledResult(outcome: Outcome, toolCalls: seq<ToolRecord>, denied: seq<Denial>)

  /** Runs one scheduled task unattended, with the run's own budget, tracer and history. */
  method RunScheduledTask(sc: Scanner, autonomy: Autonomy, provider: (nat, seq<Message>) -> Stream,
                          tools: map<string, ToolSpec>, prompt: string, passes: nat) returns (r: ScheduledResult)
    ensures var agent := Agent(provider, tools, PolicyApprove(sc, autonomy));
            var (f, o) := Turn(agent, SCHEDULED_LIMITS, ScheduledStart(prompt), passes);
            r == ScheduledResult(o, f.desk.records, f.desk.denied)
    ensures var start := TurnState([Message(User, prompt, [], [], [])], Usage(0, 0), [], Desk([], [], 0, 0), 0);
            var agent := Agent(provider, tools, PolicyApprove(sc, autonomy));
            var (f, o) := Turn(agent, Limits(20, 500000), start, passes);
            r.outcome == o && (ReportsUsage(agent) ==> f.streams <= 20 && (passes > 20 ==> o != StillRunning))
    ensures var d := Desk(r.toolCalls, r.denied, 0, 0);
            && DenialsMatch(d) && NothingBlockedRan(sc, tools, d)
            && (autonomy == SafeOnly ==> SafeToolsOnly(tools, d))
  {
    hide AfterCall, AfterCalls, Turn;
    var agent := Agent(provider, tools, PolicyApprove(sc, autonomy));
    var budget := new Budget(SCHEDULED_LIMITS);
    var tracer := new Tracer();
    var loop := new Loop(agent, budget, tracer);
    var history := new Conversation([Say(User, prompt)]);
    assert loop.StateNow(history) == ScheduledStart(prompt);
    var outcome := loop.RunTurn(history, passes);
    ScheduledRunObeysPolicy(sc, autonomy, agent, prompt, passes);
    if ReportsUsage(agent) { TurnEnds(agent, SCHEDULED_LIMITS, ScheduledStart(prompt), passes); }
    return ScheduledResult(outcome, tracer.toolCalls, loop.denied);
  }
}
