/** The fold that turns a chat turn's event stream into the message that is stored: an in-place
    fold over the steps, and the batch specification it computes. */
module ChatFold {
  import opened Orders

  datatype Agent = Agent(name: string)
  datatype Usage = Usage(input: nat, output: nat, cacheCreation: nat, cacheRead: nat, cost: real, latency: nat)

  datatype Event =
    | Presentation(text: string)
    | TraceStarted(trace: string)
    | PlanReady(plan: Option<string>)
    | AgentStarted(agent: Agent, model: Option<string>)
    | AgentDone(agent: Agent, text: string, usage: Usage)
    | AgentThinking(agent: Agent, text: string, extended: bool)
    | AgentToolCall(agent: Agent, tool: string, input: string)
    | AgentToolResult(agent: Agent, blocked: bool, latency: nat, result: Option<string>)
    | Other

  datatype ToolCall = ToolCall(tool: string, input: string, blocked: bool, duration: nat, preview: Option<string>)
  datatype Reply = Reply(text: string, usage: Usage)
  datatype Step = Step(
    agent: Agent, model: Option<string>, reply: Option<Reply>,
    thinking: Option<string>, reasoning: Option<string>, calls: seq<ToolCall>)

  const PREVIEW := 2000
  const RESULT_PREVIEW := 500

  function Cut(s: string, n: nat): string {
    if |s| > n then s[..n] else s
  }

  /** Appends to a capped buffer; a full buffer takes nothing more. */
  function Grown(buffer: Option<string>, text: string): string {
    var sofar := if buffer.Some? then buffer.value else "";
    if |sofar| < PREVIEW then Cut(sofar + text, PREVIEW) else sofar
  }

  /** A result is written onto the last call of its step. */
  function WithResult(call: ToolCall, blocked: bool, latency: nat, result: Option<string>): ToolCall {
    call.(blocked := call.blocked || blocked, duration := latency,
          preview := if result.Some? then Some(Cut(result.value, RESULT_PREVIEW)) else call.preview)
  }

  // ----- the fold ------------------------------------------------------------------

  /** k is the first step of the agent. */
  predicate IsFirst(steps: seq<Step>, a: Agent, k: nat) {
    k < |steps| && steps[k].agent == a && forall j | 0 <= j < k :: steps[j].agent != a
  }

  /** k is its latest step. */
  predicate IsLatest(steps: seq<Step>, a: Agent, k: nat) {
    k < |steps| && steps[k].agent == a && forall j | k < j < |steps| :: steps[j].agent != a
  }

  /** k is its latest step among those that have tool calls. */
  predicate IsLatestWithCalls(steps: seq<Step>, a: Agent, k: nat) {
    k < |steps| && steps[k].agent == a && steps[k].calls != []
    && forall j | k < j < |steps| :: steps[j].agent != a || steps[j].calls == []
  }

  /** The step an event changes becomes what the event makes of it. */
  function Touched(step: Step, e: Event): Step {
    match e
    case AgentDone(_, text, usage) => step.(reply := Some(Reply(text, usage)))
    case AgentThinking(_, text, extended) =>
      if extended then step.(thinking := Some(Grown(step.thinking, text)))
      else step.(reasoning := Some(Grown(step.reasoning, text)))
    case AgentToolCall(_, tool, input) => step.(calls := step.calls + [ToolCall(tool, input, false, 0, None)])
    case AgentToolResult(_, blocked, latency, result) =>
      if step.calls == [] then step
      else
        var last := |step.calls| - 1;
        step.(calls := step.calls[last := WithResult(step.calls[last], blocked, latency, result)])
    case _ => step
  }

  /** The event changes step k. */
  predicate Hits(steps: seq<Step>, e: Event, k: nat) {
    match e
    case AgentDone(a, _, _) => IsFirst(steps, a, k)
    case AgentThinking(a, _, _) => IsLatest(steps, a, k)
    case AgentToolCall(a, _, _) => IsLatest(steps, a, k)
    case AgentToolResult(a, _, _, _) => IsLatestWithCalls(steps, a, k)
    case _ => false
  }

  /** after is what the event makes of the steps: one more, or one touched, or no change. */
  predicate StepsAfter(steps: seq<Step>, e: Event, after: seq<Step>) {
    if e.AgentStarted? then after == steps + [Step(e.agent, e.model, None, None, None, [])]
    else
      && |after| == |steps|
      && forall k | 0 <= k < |steps| :: after[k] == if Hits(steps, e, k) then Touched(steps[k], e) else steps[k]
  }

  /** A reply goes to the first step of its agent, whole. */
  lemma ReplyGoesToFirstStep(steps: seq<Step>, a: Agent, text: string, usage: Usage, after: seq<Step>, k: nat)
    requires StepsAfter(steps, AgentDone(a, text, usage), after)
    requires k < |steps| && steps[k].agent == a && forall j | 0 <= j < k :: steps[j].agent != a
    ensures after == steps[k := steps[k].(reply := Some(Reply(text, usage)))]
  {
  }

  /** A thought goes to the latest step of its agent, onto one of two buffers of 2000 characters. */
  lemma ThoughtGoesToLatestStep(steps: seq<Step>, a: Agent, text: string, extended: bool, after: seq<Step>, k: nat)
    requires StepsAfter(steps, AgentThinking(a, text, extended), after)
    requires k < |steps| && steps[k].agent == a && forall j | k < j < |steps| :: steps[j].agent != a
    ensures var had := if extended then steps[k].thinking else steps[k].reasoning;
      var all := (if had.Some? then had.value else "") + text;
      var kept := if had.Some? && |had.value| >= 2000 then had.value else if |all| > 2000 then all[..2000] else all;
      after == steps[k := if extended then steps[k].(thinking := Some(kept)) else steps[k].(reasoning := Some(kept))]
  {
  }

  /** A call joins the calls of the latest step of its agent, not blocked and not timed yet. */
  lemma CallGoesToLatestStep(steps: seq<Step>, a: Agent, tool: string, input: string, after: seq<Step>, k: nat)
    requires StepsAfter(steps, AgentToolCall(a, tool, input), after)
    requires k < |steps| && steps[k].agent == a && forall j | k < j < |steps| :: steps[j].agent != a
    ensures after == steps[k := steps[k].(calls := steps[k].calls + [ToolCall(tool, input, false, 0, None)])]
  {
  }

  /** A result goes to the last call of the latest step of its agent that has one: a block stays,
      the duration is the latest, and a result leaves its first 500 characters. */
  lemma ResultGoesToLatestCall(
      steps: seq<Step>, a: Agent, blocked: bool, latency: nat, result: Option<string>, after: seq<Step>, k: nat)
    requires StepsAfter(steps, AgentToolResult(a, blocked, latency, result), after)
    requires k < |steps| && steps[k].agent == a && steps[k].calls != []
    requires forall j | k < j < |steps| :: steps[j].agent != a || steps[j].calls == []
    ensures var n := |steps[k].calls| - 1;
      var c := steps[k].calls[n];
      var preview := match result
        case None => c.preview
        case Some(text) => Some(if |text| > 500 then text[..500] else text);
      after == steps[k := steps[k].(
        calls := steps[k].calls[n := ToolCall(c.tool, c.input, c.blocked || blocked, latency, preview)])]
  {
  }

  /** Events of agents that have no step, or no call to attach a result to, change no step. */
  lemma StrayEventsChangeNothing(steps: seq<Step>, e: Event, after: seq<Step>)
    requires StepsAfter(steps, e, after)
    requires e.AgentDone? || e.AgentThinking? || e.AgentToolCall? || e.AgentToolResult?
    requires forall k | 0 <= k < |steps| :: steps[k].agent != e.agent || (e.AgentToolResult? && steps[k].calls == [])
    ensures after == steps
  {
  }

  class Message {
    var text: string
    var trace: Option<string>
    var plan: Option<string>
    var steps: seq<Step>

    constructor ()
      ensures text == "" && trace == None && plan == None && steps == []
    {
      text, trace, plan, steps := "", None, None, [];
    }

    /** The forward search. */
    method FindFirst(a: Agent) returns (k: nat)
      ensures k <= |steps| && (k < |steps| ==> IsFirst(steps, a, k))
      ensures k == |steps| ==> forall j | 0 <= j < |steps| :: steps[j].agent != a
    {
      k := 0;
      while k < |steps| && steps[k].agent != a
        invariant k <= |steps| && forall j | 0 <= j < k :: steps[j].agent != a
      {
        k := k + 1;
      }
    }

    /** The backward search, among all steps or only those with tool calls. */
    method FindLatest(a: Agent, withCalls: bool) returns (found: bool, k: nat)
      ensures found ==> if withCalls then IsLatestWithCalls(steps, a, k) else IsLatest(steps, a, k)
      ensures !found ==> forall j | 0 <= j < |steps| :: steps[j].agent != a || (withCalls && steps[j].calls == [])
    {
      k := |steps|;
      while k > 0
        invariant k <= |steps|
        invariant forall j | k <= j < |steps| :: steps[j].agent != a || (withCalls && steps[j].calls == [])
      {
        k := k - 1;
        if steps[k].agent == a && (!withCalls || steps[k].calls != []) { return true, k; }
      }
      found := false;
    }

    method OnEvent(e: Event)
      modifies this
      ensures text == if e.Presentation? then e.text else old(text)
      ensures trace == if e.TraceStarted? then Some(e.trace) else old(trace)
      ensures plan == if e.PlanReady? && e.plan.Some? then e.plan else old(plan)
      ensures StepsAfter(old(steps), e, steps)
    {
      match e
      case Presentation(t) => text := t;
      case TraceStarted(t) => trace := Some(t);
      case PlanReady(p) => if p.Some? { plan := p; }
      case AgentStarted(a, m) => steps := steps + [Step(a, m, None, None, None, [])];
      case AgentDone(a, _, _) =>
        var k := FindFirst(a);
        if k < |steps| { steps := steps[k := Touched(steps[k], e)]; }
      case AgentThinking(a, _, _) =>
        var found, k := FindLatest(a, false);
        if found { steps := steps[k := Touched(steps[k], e)]; }
      case AgentToolCall(a, _, _) =>
        var found, k := FindLatest(a, false);
        if found { steps := steps[k := Touched(steps[k], e)]; }
      case AgentToolResult(a, _, _, _) =>
        var found, k := FindLatest(a, true);
        if found { steps := steps[k := Touched(steps[k], e)]; }
      case Other =>
    }
  }

  // ----- the batch specification ------------------------------------------------------

  /** The steps are the starts, in order. */
  function Started(es: seq<Event>): seq<Event> {
    if es == [] then []
    else Started(es[..|es| - 1]) + if es[|es| - 1].AgentStarted? then [es[|es| - 1]] else []
  }

  lemma {:induction false} StartedAreStarts(es: seq<Event>)
    ensures forall k | 0 <= k < |Started(es)| :: Started(es)[k].AgentStarted?
  {
    if es != [] { StartedAreStarts(es[..|es| - 1]); }
  }

  function AgentOf(e: Event): Option<Agent> {
    if e.AgentStarted? || e.AgentDone? || e.AgentThinking? || e.AgentToolCall? || e.AgentToolResult? then Some(e.agent)
    else None
  }

  predicate FirstOf(es: seq<Event>, a: Agent, k: nat) {
    var st := Started(es);
    k < |st| && AgentOf(st[k]) == Some(a) && forall j | 0 <= j < k :: AgentOf(st[j]) != Some(a)
  }

  predicate LatestOf(es: seq<Event>, a: Agent, k: nat) {
    var st := Started(es);
    k < |st| && AgentOf(st[k]) == Some(a) && forall j | k < j < |st| :: AgentOf(st[j]) != Some(a)
  }

  predicate LatestCallerOf(es: seq<Event>, a: Agent, k: nat) {
    var st := Started(es);
    k < |st| && AgentOf(st[k]) == Some(a) && Routed(es, k, Calls) != []
    && forall j | k < j < |st| :: AgentOf(st[j]) != Some(a) || Routed(es, j, Calls) == []
  }

  datatype Kind = Replies | Thinking | Reasoning | Calls

  /** Which step an event that comes after es belongs to. */
  predicate Belongs(es: seq<Event>, e: Event, k: nat, kind: Kind) {
    match kind
    case Replies => e.AgentDone? && FirstOf(es, e.agent, k)
    case Thinking => e.AgentThinking? && e.extended && LatestOf(es, e.agent, k)
    case Reasoning => e.AgentThinking? && !e.extended && LatestOf(es, e.agent, k)
    case Calls => e.AgentToolCall? && LatestOf(es, e.agent, k)
  }

  /** All events of one kind that belong to step k, in order. */
  function Routed(es: seq<Event>, k: nat, kind: Kind): seq<Event>
    decreases |es|
  {
    if es == [] then []
    else
      var n := |es| - 1;
      Routed(es[..n], k, kind) + if Belongs(es[..n], es[n], k, kind) then [es[n]] else []
  }

  /** All results of call c of step k: those that come while it is the latest call of the latest
      step of its agent that has any. */
  function Results(es: seq<Event>, k: nat, c: nat): seq<Event> {
    if es == [] then []
    else
      var n := |es| - 1;
      var e, before := es[n], es[..n];
      Results(before, k, c)
      + if e.AgentToolResult? && LatestCallerOf(before, e.agent, k) && |Routed(before, k, Calls)| == c + 1 then [e] else []
  }

  function Joined(es: seq<Event>): string {
    if es == [] then ""
    else Joined(es[..|es| - 1]) + if es[|es| - 1].AgentThinking? then es[|es| - 1].text else ""
  }

  /** The first characters of everything said, if anything was. */
  function PreviewOf(es: seq<Event>): Option<string> {
    if es == [] then None else Some(Cut(Joined(es), PREVIEW))
  }

  /** It is the first 2000 characters, or all if they are not more. */
  lemma PreviewIsFirst2000(es: seq<Event>)
    requires es != []
    ensures PreviewOf(es) == Some(if |Joined(es)| > 2000 then Joined(es)[..2000] else Joined(es))
    ensures PreviewOf([]) == None
  {
  }

  function ReplyOf(dones: seq<Event>): Option<Reply> {
    if dones == [] then None
    else
      var last := dones[|dones| - 1];
      if last.AgentDone? then Some(Reply(last.text, last.usage)) else None
  }

  /** A call with its results: blocked if any was, timed by the last, previewed by the last that has one. */
  function CallWith(call: Event, results: seq<Event>): ToolCall
    requires call.AgentToolCall?
  {
    if results == [] then ToolCall(call.tool, call.input, false, 0, None)
    else
      var n := |results| - 1;
      if results[n].AgentToolResult? then
        WithResult(CallWith(call, results[..n]), results[n].blocked, results[n].latency, results[n].result)
      else CallWith(call, results[..n])
  }

  /** step is what the whole stream says of step k. */
  ghost predicate IsStepOf(es: seq<Event>, k: nat, step: Step)
    requires k < |Started(es)|
  {
    var start, calls := Started(es)[k], Routed(es, k, Calls);
    && start.AgentStarted? && step.agent == start.agent && step.model == start.model
    && step.reply == ReplyOf(Routed(es, k, Replies))
    && step.thinking == PreviewOf(Routed(es, k, Thinking))
    && step.reasoning == PreviewOf(Routed(es, k, Reasoning))
    && |step.calls| == |calls|
    && forall c | 0 <= c < |calls| :: calls[c].AgentToolCall? && step.calls[c] == CallWith(calls[c], Results(es, k, c))
  }

  /** steps is what the whole stream says of every step. */
  ghost predicate IsBatch(es: seq<Event>, steps: seq<Step>) {
    |steps| == |Started(es)| && forall k | 0 <= k < |steps| :: IsStepOf(es, k, steps[k])
  }

  // ----- the fold computes the batch specification ----------------------------------------

  lemma Extended(es: seq<Event>, e: Event)
    ensures (es + [e])[..|es + [e]| - 1] == es && (es + [e])[|es + [e]| - 1] == e
  {
  }

  lemma {:induction false} NothingBelongsToLaterSteps(es: seq<Event>, k: nat, kind: Kind)
    requires k >= |Started(es)|
    ensures Routed(es, k, kind) == []
  {
    if es != [] { NothingBelongsToLaterSteps(es[..|es| - 1], k, kind); }
  }

  /** Growing the capped buffer and capping everything at the end is the same. */
  lemma CutGrows(s: string, t: string)
    ensures Cut(s + t, PREVIEW) == Grown(Some(Cut(s, PREVIEW)), t)
  {
    if |s| >= PREVIEW { assert (s + t)[..PREVIEW] == s[..PREVIEW]; }
    if |s| == PREVIEW { assert s[..PREVIEW] == s; }
    if |s| == PREVIEW && t == "" { assert s + t == s; }
  }

  lemma GrownIsCut(texts: seq<Event>, e: Event)
    requires e.AgentThinking?
    ensures PreviewOf(texts + [e]) == Some(Grown(PreviewOf(texts), e.text))
  {
    Extended(texts, e);
    assert Joined(texts + [e]) == Joined(texts) + e.text;
    CutGrows(Joined(texts), e.text);
  }

  lemma RoutedStep(es: seq<Event>, e: Event, k: nat, kind: Kind)
    ensures Belongs(es, e, k, kind) ==> Routed(es + [e], k, kind) == Routed(es, k, kind) + [e]
    ensures !Belongs(es, e, k, kind) ==> Routed(es + [e], k, kind) == Routed(es, k, kind)
  {
    Extended(es, e);
  }

  lemma ResultsStep(es: seq<Event>, e: Event, k: nat, c: nat)
    ensures var hit := e.AgentToolResult? && LatestCallerOf(es, e.agent, k) && |Routed(es, k, Calls)| == c + 1;
      Results(es + [e], k, c) == if hit then Results(es, k, c) + [e] else Results(es, k, c)
  {
    Extended(es, e);
  }

  lemma StartedStep(es: seq<Event>, e: Event)
    ensures Started(es + [e]) == Started(es) + if e.AgentStarted? then [e] else []
  {
    Extended(es, e);
  }

  /** Whether the fold's search hits step k is what the stream says. */
  lemma HitIsBelonging(es: seq<Event>, steps: seq<Step>, e: Event, k: nat)
    requires IsBatch(es, steps) && k < |steps|
    ensures Hits(steps, e, k) ==
      match e
      case AgentDone(_, _, _) => Belongs(es, e, k, Replies)
      case AgentThinking(_, _, x) => Belongs(es, e, k, if x then Thinking else Reasoning)
      case AgentToolCall(_, _, _) => Belongs(es, e, k, Calls)
      case AgentToolResult(a, _, _, _) => LatestCallerOf(es, a, k)
      case _ => false
  {
    forall j | 0 <= j < |steps|
      ensures AgentOf(Started(es)[j]) == Some(steps[j].agent) && (steps[j].calls == [] <==> Routed(es, j, Calls) == [])
    {
      assert IsStepOf(es, j, steps[j]);
    }
  }

  /** An event that does not belong to step k leaves it as it was. */
  lemma OthersUntouched(es: seq<Event>, e: Event, k: nat, step: Step)
    requires k < |Started(es)| && IsStepOf(es, k, step)
    requires forall kind :: !Belongs(es, e, k, kind)
    requires e.AgentToolResult? ==> !LatestCallerOf(es, e.agent, k)
    ensures k < |Started(es + [e])| && IsStepOf(es + [e], k, step)
  {
    StartedStep(es, e);
    forall kind ensures Routed(es + [e], k, kind) == Routed(es, k, kind) { RoutedStep(es, e, k, kind); }
    forall c: nat ensures Results(es + [e], k, c) == Results(es, k, c) { ResultsStep(es, e, k, c); }
  }

  /** A started agent adds a step and changes no other. */
  lemma StartExtendsBatch(es: seq<Event>, steps: seq<Step>, e: Event)
    requires IsBatch(es, steps) && e.AgentStarted?
    ensures IsBatch(es + [e], steps + [Step(e.agent, e.model, None, None, None, [])])
  {
    StartedStep(es, e);
    forall k | 0 <= k < |steps| ensures IsStepOf(es + [e], k, steps[k]) { OthersUntouched(es, e, k, steps[k]); }
    forall kind ensures Routed(es + [e], |steps|, kind) == [] {
      NothingBelongsToLaterSteps(es, |steps|, kind);
      RoutedStep(es, e, |steps|, kind);
    }
  }

  /** An event that is no result leaves all results alone, and joins one kind only. */
  lemma JoinsOneKind(es: seq<Event>, e: Event, k: nat, kind: Kind)
    requires Belongs(es, e, k, kind)
    ensures Routed(es + [e], k, kind) == Routed(es, k, kind) + [e]
    ensures forall other | other != kind :: Routed(es + [e], k, other) == Routed(es, k, other)
    ensures forall c: nat :: Results(es + [e], k, c) == Results(es, k, c)
  {
    RoutedStep(es, e, k, kind);
    forall other | other != kind ensures Routed(es + [e], k, other) == Routed(es, k, other) { RoutedStep(es, e, k, other); }
    forall c: nat ensures Results(es + [e], k, c) == Results(es, k, c) { ResultsStep(es, e, k, c); }
  }

  lemma ReplyIsBatch(es: seq<Event>, e: Event, k: nat, step: Step)
    requires k < |Started(es)| && IsStepOf(es, k, step) && Belongs(es, e, k, Replies)
    ensures k < |Started(es + [e])| && IsStepOf(es + [e], k, Touched(step, e))
  {
    StartedStep(es, e);
    JoinsOneKind(es, e, k, Replies);
    Extended(Routed(es, k, Replies), e);
  }

  lemma ThinkingIsBatch(es: seq<Event>, e: Event, k: nat, step: Step)
    requires k < |Started(es)| && IsStepOf(es, k, step) && Belongs(es, e, k, Thinking)
    ensures k < |Started(es + [e])| && IsStepOf(es + [e], k, Touched(step, e))
  {
    StartedStep(es, e);
    JoinsOneKind(es, e, k, Thinking);
    GrownIsCut(Routed(es, k, Thinking), e);
  }

  lemma ReasoningIsBatch(es: seq<Event>, e: Event, k: nat, step: Step)
    requires k < |Started(es)| && IsStepOf(es, k, step) && Belongs(es, e, k, Reasoning)
    ensures k < |Started(es + [e])| && IsStepOf(es + [e], k, Touched(step, e))
  {
    StartedStep(es, e);
    JoinsOneKind(es, e, k, Reasoning);
    GrownIsCut(Routed(es, k, Reasoning), e);
  }

  lemma CallIsBatch(es: seq<Event>, e: Event, k: nat, step: Step)
    requires k < |Started(es)| && IsStepOf(es, k, step) && Belongs(es, e, k, Calls)
    ensures k < |Started(es + [e])| && IsStepOf(es + [e], k, Touched(step, e))
  {
    StartedStep(es, e);
    JoinsOneKind(es, e, k, Calls);
    LastCallHasNoResults(es, k);
  }

  /** A call that is not there yet has no results. */
  lemma {:induction false} LastCallHasNoResults(es: seq<Event>, k: nat)
    ensures forall c | c >= |Routed(es, k, Calls)| :: Results(es, k, c) == []
  {
    if es != [] {
      var n := |es| - 1;
      LastCallHasNoResults(es[..n], k);
    }
  }

  lemma CallWithStep(call: Event, results: seq<Event>, e: Event)
    requires call.AgentToolCall? && e.AgentToolResult?
    ensures CallWith(call, results + [e]) == WithResult(CallWith(call, results), e.blocked, e.latency, e.result)
  {
    Extended(results, e);
  }

  /** A result joins the results of the last call of its step, and nothing else. */
  lemma JoinsLastCall(es: seq<Event>, e: Event, k: nat, last: nat)
    requires e.AgentToolResult? && LatestCallerOf(es, e.agent, k) && last + 1 == |Routed(es, k, Calls)|
    ensures forall kind :: Routed(es + [e], k, kind) == Routed(es, k, kind)
    ensures Results(es + [e], k, last) == Results(es, k, last) + [e]
    ensures forall c: nat | c != last :: Results(es + [e], k, c) == Results(es, k, c)
  {
    forall kind ensures Routed(es + [e], k, kind) == Routed(es, k, kind) { RoutedStep(es, e, k, kind); }
    ResultsStep(es, e, k, last);
    forall c: nat | c != last ensures Results(es + [e], k, c) == Results(es, k, c) { ResultsStep(es, e, k, c); }
  }

  /** A result goes to the last call so far of the step it belongs to. */
  lemma ResultIsBatch(es: seq<Event>, e: Event, k: nat, step: Step)
    requires k < |Started(es)| && IsStepOf(es, k, step) && e.AgentToolResult? && LatestCallerOf(es, e.agent, k)
    ensures k < |Started(es + [e])| && IsStepOf(es + [e], k, Touched(step, e))
  {
    StartedStep(es, e);
    var last := |step.calls| - 1;
    JoinsLastCall(es, e, k, last);
    CallWithStep(Routed(es, k, Calls)[last], Results(es, k, last), e);
  }

  /** One event at a time, the fold keeps to the batch specification. */
  lemma FoldStepIsBatch(es: seq<Event>, steps: seq<Step>, e: Event, after: seq<Step>)
    requires IsBatch(es, steps) && StepsAfter(steps, e, after)
    ensures IsBatch(es + [e], after)
  {
    StartedStep(es, e);
    if e.AgentStarted? {
      StartExtendsBatch(es, steps, e);
    } else {
      forall k | 0 <= k < |steps| ensures IsStepOf(es + [e], k, after[k]) {
        HitIsBelonging(es, steps, e, k);
        assert IsStepOf(es, k, steps[k]);
        if Hits(steps, e, k) {
          match e
          case AgentDone(_, _, _) => ReplyIsBatch(es, e, k, steps[k]);
          case AgentThinking(_, _, extended) =>
            if extended { ThinkingIsBatch(es, e, k, steps[k]); } else { ReasoningIsBatch(es, e, k, steps[k]); }
          case AgentToolCall(_, _, _) => CallIsBatch(es, e, k, steps[k]);
          case AgentToolResult(_, _, _, _) => ResultIsBatch(es, e, k, steps[k]);
        } else {
          OthersUntouched(es, e, k, steps[k]);
        }
      }
    }
  }

  function TextOf(es: seq<Event>): string {
    if es == [] then "" else if es[|es| - 1].Presentation? then es[|es| - 1].text else TextOf(es[..|es| - 1])
  }

  function TraceOf(es: seq<Event>): Option<string> {
    if es == [] then None else if es[|es| - 1].TraceStarted? then Some(es[|es| - 1].trace) else TraceOf(es[..|es| - 1])
  }

  function PlanOf(es: seq<Event>): Option<string> {
    if es == [] then None
    else if es[|es| - 1].PlanReady? && es[|es| - 1].plan.Some? then es[|es| - 1].plan
    else PlanOf(es[..|es| - 1])
  }

  /** Consumes the stream until the client is gone, the stream breaks or it ends: `seen` events,
      whatever that number is. */
  method Consume(events: seq<Event>, seen: nat) returns (m: Message)
    requires seen <= |events|
    ensures fresh(m)
    ensures m.text == TextOf(events[..seen]) && m.trace == TraceOf(events[..seen]) && m.plan == PlanOf(events[..seen])
    ensures IsBatch(events[..seen], m.steps)
  {
    m := new Message();
    for i := 0 to seen
      invariant fresh(m)
      invariant m.text == TextOf(events[..i]) && m.trace == TraceOf(events[..i]) && m.plan == PlanOf(events[..i])
      invariant IsBatch(events[..i], m.steps)
    {
      ghost var before := m.steps;
      m.OnEvent(events[i]);
      assert events[..i + 1] == events[..i] + [events[i]];
      Extended(events[..i], events[i]);
      FoldStepIsBatch(events[..i], before, events[i], m.steps);
    }
  }

  // ----- the totals --------------------------------------------------------------------

  function Sum(n: nat, g: nat -> real): real {
    if n == 0 then 0.0 else Sum(n - 1, g) + g(n - 1)
  }

  lemma {:induction false} SumEqual(n: nat, g: nat -> real, h: nat -> real)
    requires forall k | 0 <= k < n :: g(k) == h(k)
    ensures Sum(n, g) == Sum(n, h)
  {
    if n > 0 { SumEqual(n - 1, g, h); }
  }

  lemma {:induction false} SumDiffersAt(n: nat, g: nat -> real, h: nat -> real, i: nat)
    requires i < n && forall k | 0 <= k < n && k != i :: g(k) == h(k)
    ensures Sum(n, g) == Sum(n, h) + g(i) - h(i)
  {
    if i == n - 1 { SumEqual(n - 1, g, h); } else { SumDiffersAt(n - 1, g, h, i); }
  }

  /** One figure of a step's reply, nothing if it has none. */
  function Figure(reply: Option<Reply>, f: Usage -> real): real {
    if reply.Some? then f(reply.value.usage) else 0.0
  }

  function Total(steps: seq<Step>, f: Usage -> real): real {
    Sum(|steps|, (k: nat) => if k < |steps| then Figure(steps[k].reply, f) else 0.0)
  }

  lemma {:induction false} TotalOfMore(steps: seq<Step>, f: Usage -> real, i: nat)
    requires i < |steps|
    ensures Total(steps[..i + 1], f) == Total(steps[..i], f) + Figure(steps[i].reply, f)
  {
    var a, b := steps[..i + 1], steps[..i];
    SumEqual(i,
             (k: nat) => if k < |a| then Figure(a[k].reply, f) else 0.0,
             (k: nat) => if k < |b| then Figure(b[k].reply, f) else 0.0);
  }

  function InputOf(u: Usage): real { u.input as real }
  function OutputOf(u: Usage): real { u.output as real }
  function CostOf(u: Usage): real { u.cost }

  /** What the three figures are: tokens in, tokens out, and the cost, of one step's reply. */
  lemma TotalOfOneStep(step: Step)
    ensures step.reply.Some? ==>
      && Total([step], InputOf) == step.reply.value.usage.input as real
      && Total([step], OutputOf) == step.reply.value.usage.output as real
      && Total([step], CostOf) == step.reply.value.usage.cost
    ensures step.reply.None? ==>
      Total([step], InputOf) == 0.0 && Total([step], OutputOf) == 0.0 && Total([step], CostOf) == 0.0
  {
    TotalOfMore([step], InputOf, 0);
    TotalOfMore([step], OutputOf, 0);
    TotalOfMore([step], CostOf, 0);
    assert [step][..1] == [step];
  }

  /** The sums over the steps that are stored with the message. */
  method Totals(m: Message) returns (input: nat, output: nat, cost: real)
    ensures input as real == Total(m.steps, InputOf) && output as real == Total(m.steps, OutputOf)
    ensures cost == Total(m.steps, CostOf)
  {
    input, output, cost := 0, 0, 0.0;
    for i := 0 to |m.steps|
      invariant input as real == Total(m.steps[..i], InputOf) && output as real == Total(m.steps[..i], OutputOf)
      invariant cost == Total(m.steps[..i], CostOf)
    {
      TotalOfMore(m.steps, InputOf, i);
      TotalOfMore(m.steps, OutputOf, i);
      TotalOfMore(m.steps, CostOf, i);
      if m.steps[i].reply.Some? {
        var usage := m.steps[i].reply.value.usage;
        input, output, cost := input + usage.input, output + usage.output, cost + usage.cost;
      }
    }
    assert m.steps[..|m.steps|] == m.steps;
  }

  predicate HasStarted(es: seq<Event>, a: Agent) {
    exists k | 0 <= k < |Started(es)| :: AgentOf(Started(es)[k]) == Some(a)
  }

  /** The q-th event is an agent's last reply after it first started. */
  predicate Wins(es: seq<Event>, q: nat) {
    && q < |es| && es[q].AgentDone? && HasStarted(es[..q], es[q].agent)
    && forall p | q < p < |es| :: !(es[p].AgentDone? && es[p].agent == es[q].agent)
  }

  /** What the q-th event counts for, replies of the agents in `later` being overwritten anyway. */
  function Won(es: seq<Event>, later: set<Agent>, f: Usage -> real, q: nat): real {
    if q < |es| && Wins(es, q) && es[q].agent !in later then f(es[q].usage) else 0.0
  }

  function Winnings(es: seq<Event>, later: set<Agent>, f: Usage -> real): real {
    Sum(|es|, (q: nat) => Won(es, later, f, q))
  }

  /** What step k counts for. */
  function Share(es: seq<Event>, later: set<Agent>, f: Usage -> real, k: nat): real {
    if k < |Started(es)| && Started(es)[k].AgentStarted? && Started(es)[k].agent !in later
    then Figure(ReplyOf(Routed(es, k, Replies)), f) else 0.0
  }

  function Shares(es: seq<Event>, later: set<Agent>, f: Usage -> real): real {
    Sum(|Started(es)|, (k: nat) => Share(es, later, f, k))
  }

  /** Only the first step of an agent ever gets a reply. */
  lemma {:induction false} OnlyFirstStepsReply(es: seq<Event>, k: nat)
    requires Routed(es, k, Replies) != []
    ensures k < |Started(es)| && Started(es)[k].AgentStarted? && FirstOf(es, Started(es)[k].agent, k)
  {
    var n := |es| - 1;
    StartedAreStarts(es);
    StartedStep(es[..n], es[n]);
    assert es == es[..n] + [es[n]];
    if Routed(es[..n], k, Replies) != [] { OnlyFirstStepsReply(es[..n], k); }
  }

  lemma WinsStep(es: seq<Event>, e: Event, q: nat)
    requires q < |es|
    ensures Wins(es + [e], q) <==> Wins(es, q) && !(e.AgentDone? && e.agent == es[q].agent)
  {
    var es' := es + [e];
    assert es'[..q] == es[..q] && es'[q] == es[q] && es'[|es|] == e;
    assert forall p | q < p < |es| :: es'[p] == es[p];
  }

  /** A later reply takes its agent out of the running; what is left adds up as before. */
  lemma WinningsStep(es: seq<Event>, e: Event, later: set<Agent>, f: Usage -> real)
    ensures Winnings(es + [e], later, f) ==
      Winnings(es, if e.AgentDone? then later + {e.agent} else later, f)
      + if e.AgentDone? && HasStarted(es, e.agent) && e.agent !in later then f(e.usage) else 0.0
  {
    var es', next := es + [e], if e.AgentDone? then later + {e.agent} else later;
    forall q | 0 <= q < |es| ensures Won(es', later, f, q) == Won(es, next, f, q) {
      WinsStep(es, e, q);
    }
    SumEqual(|es|, (q: nat) => Won(es', later, f, q), (q: nat) => Won(es, next, f, q));
    assert es'[..|es|] == es;
  }

  /** The first start of an agent that has started. */
  lemma FirstExists(es: seq<Event>, a: Agent) returns (k: nat)
    requires HasStarted(es, a)
    ensures FirstOf(es, a, k)
  {
    var st := Started(es);
    k := 0;
    while AgentOf(st[k]) != Some(a)
      invariant k < |st| && (forall j | 0 <= j < k :: AgentOf(st[j]) != Some(a))
      invariant exists j | k <= j < |st| :: AgentOf(st[j]) == Some(a)
      decreases |st| - k
    {
      k := k + 1;
    }
  }

  lemma SharesStepOther(es: seq<Event>, e: Event, later: set<Agent>, f: Usage -> real)
    requires !e.AgentDone?
    ensures Shares(es + [e], later, f) == Shares(es, later, f)
  {
    var n := |Started(es)|;
    StartedStep(es, e);
    forall k | 0 <= k < n ensures Share(es + [e], later, f, k) == Share(es, later, f, k) { RoutedStep(es, e, k, Replies); }
    SumEqual(n, (k: nat) => Share(es + [e], later, f, k), (k: nat) => Share(es, later, f, k));
    if e.AgentStarted? {
      NothingBelongsToLaterSteps(es, n, Replies);
      RoutedStep(es, e, n, Replies);
    }
  }

  /** A reply counts on the first step of its agent, and replaces what counted there. */
  lemma SharesStepDone(es: seq<Event>, e: Event, later: set<Agent>, f: Usage -> real)
    requires e.AgentDone?
    ensures Shares(es + [e], later, f) ==
      Shares(es, later + {e.agent}, f) + if HasStarted(es, e.agent) && e.agent !in later then f(e.usage) else 0.0
  {
    var n, es' := |Started(es)|, es + [e];
    StartedStep(es, e);
    StartedAreStarts(es);
    forall k | 0 <= k < n && !(FirstOf(es, e.agent, k) && e.agent !in later)
      ensures Share(es', later, f, k) == Share(es, later + {e.agent}, f, k)
    {
      RoutedStep(es, e, k, Replies);
      if Started(es)[k].agent == e.agent && Routed(es, k, Replies) != [] { OnlyFirstStepsReply(es, k); }
    }
    var g, h := (k: nat) => Share(es', later, f, k), (k: nat) => Share(es, later + {e.agent}, f, k);
    if HasStarted(es, e.agent) && e.agent !in later {
      var k := FirstExists(es, e.agent);
      RoutedStep(es, e, k, Replies);
      Extended(Routed(es, k, Replies), e);
      SumDiffersAt(n, g, h, k);
    } else {
      SumEqual(n, g, h);
    }
  }

  /** Summing over the steps is summing over the winning replies. */
  lemma {:induction false} SharesAreWinnings(es: seq<Event>, later: set<Agent>, f: Usage -> real)
    ensures Shares(es, later, f) == Winnings(es, later, f)
    decreases |es|
  {
    if es != [] {
      var n := |es| - 1;
      var e, before := es[n], es[..n];
      assert es == before + [e];
      WinningsStep(before, e, later, f);
      if e.AgentDone? {
        SharesAreWinnings(before, later + {e.agent}, f);
        SharesStepDone(before, e, later, f);
      } else {
        SharesAreWinnings(before, later, f);
        SharesStepOther(before, e, later, f);
      }
    }
  }

  /** The stored total of a figure is its sum over each agent's last reply after its first start. */
  lemma TotalIsLastReplies(es: seq<Event>, steps: seq<Step>, f: Usage -> real)
    requires IsBatch(es, steps)
    ensures Total(steps, f) == Winnings(es, {}, f)
  {
    forall k | 0 <= k < |steps| ensures Figure(steps[k].reply, f) == Share(es, {}, f, k) {
      assert IsStepOf(es, k, steps[k]);
    }
    SumEqual(|steps|,
             (k: nat) => if k < |steps| then Figure(steps[k].reply, f) else 0.0,
             (k: nat) => Share(es, {}, f, k));
    SharesAreWinnings(es, {}, f);
  }

  /** All replies, won or not. */
  function Spent(es: seq<Event>, f: Usage -> real, q: nat): real {
    if q < |es| && es[q].AgentDone? then f(es[q].usage) else 0.0
  }

  function AllSpent(es: seq<Event>, f: Usage -> real): real {
    Sum(|es|, (q: nat) => Spent(es, f, q))
  }

  lemma {:induction false} SumBelow(n: nat, g: nat -> real, h: nat -> real)
    requires forall k | 0 <= k < n :: g(k) <= h(k)
    ensures Sum(n, g) <= Sum(n, h)
    ensures Sum(n, g) == Sum(n, h) <==> forall k | 0 <= k < n :: g(k) == h(k)
  {
    if n > 0 { SumBelow(n - 1, g, h); }
  }

  /** The total never exceeds what was spent, and is all of it exactly when every reply that was
      overwritten, or came before its agent had started, had nothing to count. */
  lemma TotalIsAllIffLosersAreFree(es: seq<Event>, steps: seq<Step>, f: Usage -> real)
    requires IsBatch(es, steps) && forall q | 0 <= q < |es| && es[q].AgentDone? :: f(es[q].usage) >= 0.0
    ensures Total(steps, f) <= AllSpent(es, f)
    ensures Total(steps, f) == AllSpent(es, f)
      <==> forall q | 0 <= q < |es| && es[q].AgentDone? && !Wins(es, q) :: f(es[q].usage) == 0.0
  {
    TotalIsLastReplies(es, steps, f);
    var won, spent := (q: nat) => Won(es, {}, f, q), (q: nat) => Spent(es, f, q);
    SumBelow(|es|, won, spent);
    forall q: nat | q < |es| ensures won(q) == spent(q) <==> (es[q].AgentDone? && !Wins(es, q) ==> f(es[q].usage) == 0.0) {
    }
    assert (forall q: nat | q < |es| :: won(q) == spent(q))
      <==> forall q: nat | q < |es| && es[q].AgentDone? && !Wins(es, q) :: f(es[q].usage) == 0.0;
  }
}
