/** The shadow agent loop: a scripted model, an executor that lets reads through and suppresses
    writes, and the decision that is captured at the end. */
module ShadowLoop {
  import opened Orders

  datatype Tool = Tool(name: string)
  datatype Capability = Capability(name: string)
  datatype Call = Call(tool: Tool, input: string)

  /** What a tool call gives back to the model. */
  datatype Result =
    | Found(results: nat)
    | Sent(messageId: string)
    | Failed(error: string)
    | Done
    | Suppressed(tool: Tool, capability: Option<Capability>)

  /** A call id is `call_` and the number of the step; `callId` is that number. */
  datatype Message =
    | Request
    | ToolUse(callId: nat, call: Call)
    | ToolResult(callId: nat, result: Result, isError: bool)

  datatype Registry = Registry(capabilities: map<Tool, Capability>, readOnly: set<Capability>)

  function CapabilityOf(r: Registry, t: Tool): Option<Capability> {
    if t in r.capabilities then Some(r.capabilities[t]) else None
  }

  /** A tool without a capability is no read: it fails closed. */
  predicate IsRead(r: Registry, t: Tool) {
    CapabilityOf(r, t).Some? && CapabilityOf(r, t).value in r.readOnly
  }

  /** The outside world, which writes down every call that reaches it. */
  class RealDispatch {
    const answers: Call -> Result
    var calls: seq<Call>

    constructor (answers: Call -> Result)
      ensures this.answers == answers && calls == []
    {
      this.answers := answers;
      calls := [];
    }

    method ExecuteTool(c: Call) returns (r: Result)
      modifies this`calls
      ensures calls == old(calls) + [c] && r == answers(c)
    {
      calls := calls + [c];
      r := answers(c);
    }
  }

  /** What the executor answers to a call. */
  function Answer(r: Registry, answers: Call -> Result, c: Call): Result {
    if IsRead(r, c.tool) then answers(c) else Suppressed(c.tool, CapabilityOf(r, c.tool))
  }

  method ExecuteShadowed(r: Registry, world: RealDispatch, c: Call) returns (result: Result)
    modifies world`calls
    ensures result == Answer(r, world.answers, c)
    ensures c.tool in r.capabilities && r.capabilities[c.tool] in r.readOnly ==>
      result == world.answers(c) && world.calls == old(world.calls) + [c]
    ensures c.tool !in r.capabilities ==> result == Suppressed(c.tool, None) && world.calls == old(world.calls)
    ensures c.tool in r.capabilities && r.capabilities[c.tool] !in r.readOnly ==>
      result == Suppressed(c.tool, Some(r.capabilities[c.tool])) && world.calls == old(world.calls)
    ensures world.calls == old(world.calls) + if IsRead(r, c.tool) then [c] else []
  {
    if IsRead(r, c.tool) {
      result := world.ExecuteTool(c);
    } else {
      result := Suppressed(c.tool, CapabilityOf(r, c.tool));
    }
  }

  /** What the final answer is put together from: the last search and the last write in the history. */
  function LastSearch(history: seq<Message>): Option<nat> {
    if history == [] then None
    else
      var m := history[|history| - 1];
      if m.ToolResult? && m.result.Found? then Some(m.result.results) else LastSearch(history[..|history| - 1])
  }

  function LastWrite(history: seq<Message>): Option<Result> {
    if history == [] then None
    else
      var m := history[|history| - 1];
      if m.ToolResult? && (m.result.Suppressed? || m.result.Sent?) then Some(m.result)
      else LastWrite(history[..|history| - 1])
  }

  /** A tool is a read exactly when it is known, and its capability reads only: an unknown tool is
      answered as suppressed, like any write. */
  lemma OnlyKnownReadsAreAnswered(r: Registry, answers: Call -> Result, c: Call)
    ensures IsRead(r, c.tool) <==> c.tool in r.capabilities && r.capabilities[c.tool] in r.readOnly
    ensures c.tool !in r.capabilities ==> Answer(r, answers, c) == Suppressed(c.tool, None)
    ensures c.tool in r.capabilities && r.capabilities[c.tool] !in r.readOnly ==>
      Answer(r, answers, c) == Suppressed(c.tool, Some(r.capabilities[c.tool]))
    ensures c.tool in r.capabilities && r.capabilities[c.tool] in r.readOnly ==> Answer(r, answers, c) == answers(c)
  {
  }

  /** The i-th message is a search result, and none comes after it. */
  lemma {:induction false} LastSearchIsLast(history: seq<Message>, i: nat)
    requires i < |history| && history[i].ToolResult? && history[i].result.Found?
    requires forall j | i < j < |history| :: !(history[j].ToolResult? && history[j].result.Found?)
    ensures LastSearch(history) == Some(history[i].result.results)
  {
    if i < |history| - 1 { LastSearchIsLast(history[..|history| - 1], i); }
  }

  lemma {:induction false} NoSearchFound(history: seq<Message>)
    requires forall j | 0 <= j < |history| :: !(history[j].ToolResult? && history[j].result.Found?)
    ensures LastSearch(history) == None
  {
    if history != [] { NoSearchFound(history[..|history| - 1]); }
  }

  /** The i-th message is the result of a write, suppressed or sent, and none comes after it. */
  lemma {:induction false} LastWriteIsLast(history: seq<Message>, i: nat)
    requires i < |history| && history[i].ToolResult? && (history[i].result.Suppressed? || history[i].result.Sent?)
    requires forall j | i < j < |history| ::
               !(history[j].ToolResult? && (history[j].result.Suppressed? || history[j].result.Sent?))
    ensures LastWrite(history) == Some(history[i].result)
  {
    if i < |history| - 1 { LastWriteIsLast(history[..|history| - 1], i); }
  }

  datatype Route = Executor | Perceiver

  datatype Decision = Decision(route: Route, intents: set<Tool>, found: nat, write: Option<Result>)

  /** Some intended tool is known, and is no read. */
  predicate WritesKnowingly(r: Registry, intents: set<Tool>) {
    exists t | t in intents :: CapabilityOf(r, t).Some? && !IsRead(r, t)
  }

  method DeriveRoute(r: Registry, intents: set<Tool>) returns (route: Route)
    ensures route == Executor <==> WritesKnowingly(r, intents)
    ensures route == Executor <==> exists t :: t in intents && t in r.capabilities && r.capabilities[t] !in r.readOnly
  {
    var left := intents;
    while left != {}
      invariant left <= intents
      invariant forall t | t in intents - left :: !(CapabilityOf(r, t).Some? && !IsRead(r, t))
    {
      var t :| t in left;
      if CapabilityOf(r, t).Some? && !IsRead(r, t) { return Executor; }
      left := left - {t};
    }
    route := Perceiver;
  }

  class Model {
    const script: seq<Call>
    var stepIndex: nat

    constructor (script: seq<Call>)
      ensures this.script == script && stepIndex == 0
    {
      this.script := script;
      stepIndex := 0;
    }

    /** The next scripted call with its number, or nothing when it is time to answer. */
    method Next() returns (step: Option<(Call, nat)>)
      modifies this`stepIndex
      ensures old(stepIndex) < |script| ==>
        stepIndex == old(stepIndex) + 1 && step == Some((script[old(stepIndex)], old(stepIndex)))
      ensures old(stepIndex) >= |script| ==> stepIndex == old(stepIndex) && step == None
    {
      if stepIndex < |script| {
        step := Some((script[stepIndex], stepIndex));
        stepIndex := stepIndex + 1;
      } else {
        step := None;
      }
    }
  }

  /** The calls of a script the world may see. */
  function ReadCalls(r: Registry, script: seq<Call>): seq<Call> {
    if script == [] then []
    else
      var n := |script| - 1;
      ReadCalls(r, script[..n]) + if IsRead(r, script[n].tool) then [script[n]] else []
  }

  function ToolsOf(script: seq<Call>): set<Tool> {
    set i | 0 <= i < |script| :: script[i].tool
  }

  /** The history after the first n calls of a script: the request, then for each call its use and
      its result, next to each other and under one number that no other call has. */
  ghost predicate Threaded(r: Registry, answers: Call -> Result, script: seq<Call>, n: nat, history: seq<Message>) {
    && n <= |script| && |history| == 1 + 2 * n && history[0] == Request
    && forall i | 0 <= i < n ::
         && history[1 + 2 * i] == ToolUse(i, script[i])
         && history[2 + 2 * i] == ToolResult(i, Answer(r, answers, script[i]), Answer(r, answers, script[i]).Failed?)
  }

  method RunAgentLoop(model: Model, r: Registry, world: RealDispatch) returns (decision: Decision, messages: seq<Message>)
    requires model.stepIndex == 0
    modifies model`stepIndex, world`calls
    ensures world.calls == old(world.calls) + ReadCalls(r, model.script)
    ensures Threaded(r, world.answers, model.script, |model.script|, messages)
    ensures decision.intents == ToolsOf(model.script)
    ensures forall t :: t in decision.intents <==> exists c :: c in model.script && c.tool == t
    ensures decision.route == Executor <==> WritesKnowingly(r, ToolsOf(model.script))
    ensures decision.found == match LastSearch(messages) case None => 0 case Some(n) => n
    ensures decision.write == LastWrite(messages)
  {
    messages := [Request];
    var intents: set<Tool> := {};
    while true
      invariant model.stepIndex <= |model.script|
      invariant world.calls == old(world.calls) + ReadCalls(r, model.script[..model.stepIndex])
      invariant Threaded(r, world.answers, model.script, model.stepIndex, messages)
      invariant intents == ToolsOf(model.script[..model.stepIndex])
      decreases |model.script| - model.stepIndex
    {
      ghost var n := model.stepIndex;
      var step := model.Next();
      if step.None? {
        assert model.script[..n] == model.script;
        var route := DeriveRoute(r, intents);
        var search := LastSearch(messages);
        decision := Decision(route, intents, if search.Some? then search.value else 0, LastWrite(messages));
        return;
      }
      var (call, callId) := step.value;
      intents := intents + {call.tool};
      var result := ExecuteShadowed(r, world, call);
      messages := messages + [ToolUse(callId, call)];
      messages := messages + [ToolResult(callId, result, result.Failed?)];
      assert model.script[..n + 1] == model.script[..n] + [call];
    }
  }

  /** No write of a script reaches the world, however it is repeated or reordered; every read does,
      in order. */
  lemma {:induction false} OnlyReadsReachTheWorld(r: Registry, script: seq<Call>)
    ensures forall c | c in ReadCalls(r, script) :: IsRead(r, c.tool) && c in script
    ensures forall c | c in script && IsRead(r, c.tool) :: c in ReadCalls(r, script)
    ensures |ReadCalls(r, script)| == |script| <==> forall c | c in script :: IsRead(r, c.tool)
    ensures |ReadCalls(r, script)| <= |script|
  {
    if script != [] {
      var n := |script| - 1;
      OnlyReadsReachTheWorld(r, script[..n]);
      assert script == script[..n] + [script[n]];
    }
  }

  /** Every tool result answers the tool use right before it, and no number is used twice. */
  lemma ResultsAnswerTheirCalls(
      r: Registry, answers: Call -> Result, script: seq<Call>, history: seq<Message>, i: nat, j: nat)
    requires Threaded(r, answers, script, |script|, history) && i < |history| && j < |history|
    ensures history[i].ToolResult? ==> i > 0 && history[i - 1].ToolUse? && history[i - 1].callId == history[i].callId
    ensures history[i].ToolUse? && history[j].ToolUse? && history[i].callId == history[j].callId ==> i == j
    ensures history[i] == Request <==> i == 0
  {
    MessageAt(r, answers, script, history, i);
    MessageAt(r, answers, script, history, j);
  }

  lemma MessageAt(r: Registry, answers: Call -> Result, script: seq<Call>, history: seq<Message>, i: nat)
    requires Threaded(r, answers, script, |script|, history) && i < |history|
    ensures i == 0 ==> history[i] == Request
    ensures i % 2 == 1 ==> history[i].ToolUse? && 2 * history[i].callId + 1 == i
    ensures i > 0 && i % 2 == 0 ==>
      && history[i].ToolResult? && 2 * history[i].callId + 2 == i
      && history[i - 1].ToolUse? && 2 * history[i - 1].callId + 1 == i - 1
  {
    if i > 0 {
      var p := (i - 1) / 2;
      assert history[1 + 2 * p] == ToolUse(p, script[p]);
      assert history[2 + 2 * p] == ToolResult(p, Answer(r, answers, script[p]), Answer(r, answers, script[p]).Failed?);
      assert i == if i % 2 == 1 then 1 + 2 * p else 2 + 2 * p;
    }
  }

  /** As long as no read claims to have sent something, the answer reports a write exactly when the
      script tried one, and then as suppressed. */
  lemma {:induction false} ReportedWritesAreSuppressed(
      r: Registry, answers: Call -> Result, script: seq<Call>, n: nat, history: seq<Message>)
    requires Threaded(r, answers, script, n, history)
    requires forall c | c in script && IsRead(r, c.tool) :: !answers(c).Sent? && !answers(c).Suppressed?
    ensures LastWrite(history).Some? <==> exists i :: 0 <= i < n && !IsRead(r, script[i].tool)
    ensures LastWrite(history).Some? ==> LastWrite(history).value.Suppressed?
    decreases n
  {
    if n == 0 {
      assert history == [Request] && history[..0] == [];
    } else {
      var m := n - 1;
      var before := history[..1 + 2 * m];
      ReportedWritesAreSuppressed(r, answers, script, m, before);
      assert history[..|history| - 1][..|history| - 2] == before;
      assert history[|history| - 1] == history[2 + 2 * m] && history[..|history| - 1][|history| - 2] == history[1 + 2 * m];
      assert script[m] in script;
    }
  }
}
