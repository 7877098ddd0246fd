/** Every schedule of gated tool calls: executions start, race, suspend, crash and are replayed
    from the top; approvals are decided once and their verdicts delivered to a fresh execution. */
module GateProtocol {
  import opened Orders
  import opened TrustGate

  /** One execution of the node; each is new. */
  datatype Exec = Exec(number: int)

  /** Where an execution stands. `carried` is the verdict recorded before it started. */
  datatype Phase =
    | Unborn
    | Starting(call: CallId, carried: Option<Verdict>, present: bool)    // about to look for the row
    | Assessing(call: CallId, carried: Option<Verdict>, present: bool)   // found none
    | Persisting(call: CallId, carried: Option<Verdict>, present: bool)  // approval is required
    | AtGate(call: CallId, carried: Option<Verdict>, present: bool, id: ApprovalId)
    | Cleared(call: CallId)                                              // about to call the handler
    | Resuming(call: CallId, verdict: Verdict)                           // decided, not yet delivered
    | Over(call: CallId)

  /** What happened so far. */
  datatype Log = Log(
    assessed: set<Exec>,                              // asked for a risk assessment
    cleared: set<CallId>,                             // once decided to need no approval
    interrupts: set<(Exec, CallId, ApprovalId)>,      // raised for a call, naming an approval
    passed: set<Exec>,                                // ran the code after the interrupt
    delivered: set<Exec>,                             // started by the delivery of a verdict
    restarted: set<Exec>,                             // started by a replay after a verdict
    handled: set<CallId>)                             // reached the handler

  datatype State = State(rows: Rows, phases: map<Exec, Phase>, verdicts: map<CallId, Verdict>, log: Log)

  datatype Event =
    | Start(e: Exec, call: CallId, present: bool)
    | Find(e: Exec)
    | Assess(e: Exec, requiresApproval: bool)
    | Persist(e: Exec, newId: ApprovalId)
    | Interrupt(e: Exec)
    | Handle(e: Exec)
    | Decide(e: Exec, id: ApprovalId, verdict: Verdict)
    | Deliver(e: Exec)
    | Crash(e: Exec)

  /** The answers the risk assessment may give for a call, at one time or another. */
  datatype World = World(mayClear: set<CallId>, mayHold: set<CallId>)

  function PhaseOf(s: State, e: Exec): Phase {
    if e in s.phases then s.phases[e] else Unborn
  }

  ghost predicate Taken(rows: Rows, call: CallId) {
    exists id :: IsRowOf(rows, call, id)
  }

  ghost function RowOf(rows: Rows, call: CallId): (id: ApprovalId)
    requires Taken(rows, call)
    ensures IsRowOf(rows, call, id)
  {
    var id :| IsRowOf(rows, call, id);
    id
  }

  function VerdictOn(s: State, call: CallId): Option<Verdict> {
    if call in s.verdicts then Some(s.verdicts[call]) else None
  }

  /** What an event makes of everything but the other executions' phases. */
  datatype Move = Move(rows: Rows, phase: Phase, verdicts: map<CallId, Verdict>, log: Log)

  function Stay(s: State, p: Phase): Move {
    Move(s.rows, p, s.verdicts, s.log)
  }

  ghost function StartMove(s: State, ev: Event): Move
    requires ev.Start?
  {
    var carried := VerdictOn(s, ev.call);
    Stay(s, Starting(ev.call, carried, ev.present)).(
      log := if carried.Some? then s.log.(restarted := s.log.restarted + {ev.e}) else s.log)
  }

  function AssessMove(world: World, s: State, ev: Event, p: Phase): Move
    requires ev.Assess? && p.Assessing?
  {
    var log := s.log.(assessed := s.log.assessed + {ev.e});
    if p.call in (if ev.requiresApproval then world.mayHold else world.mayClear) then
      if ev.requiresApproval then Stay(s, Persisting(p.call, p.carried, p.present)).(log := log)
      else Stay(s, Cleared(p.call)).(log := log.(cleared := log.cleared + {p.call}))
    else Stay(s, p)
  }

  /** Get-or-create in one transaction; the unique index sends the loser of a race to the winner's row. */
  ghost function PersistMove(s: State, ev: Event, p: Phase): Move
    requires ev.Persist? && p.Persisting?
  {
    if Taken(s.rows, p.call) then Stay(s, AtGate(p.call, p.carried, p.present, RowOf(s.rows, p.call)))
    else if ev.newId in s.rows then Stay(s, p)
    else Stay(s, AtGate(p.call, p.carried, p.present, ev.newId)).(rows := s.rows[ev.newId := Approval(p.call, Pending)])
  }

  function InterruptMove(s: State, ev: Event, p: Phase): Move
    requires ev.Interrupt? && p.AtGate?
  {
    var past := s.log.(passed := s.log.passed + {ev.e});
    match AtInterrupt(p.present, p.id, p.carried)
    case Prepared(_) => Stay(s, Over(p.call))
    case Suspended(id) => Stay(s, Over(p.call)).(log := s.log.(interrupts := s.log.interrupts + {(ev.e, p.call, id)}))
    case Handled => Stay(s, Cleared(p.call)).(log := past)
    case _ => Stay(s, Over(p.call)).(log := past)
  }

  /** An event that does not fit its execution's phase changes nothing. */
  ghost function MoveOf(world: World, s: State, ev: Event): Move {
    var p := PhaseOf(s, ev.e);
    match ev
    case Start(_, _, _) => if p.Unborn? then StartMove(s, ev) else Stay(s, p)
    case Find(_) =>
      if !p.Starting? then Stay(s, p)
      else if Taken(s.rows, p.call) then Stay(s, AtGate(p.call, p.carried, p.present, RowOf(s.rows, p.call)))
      else Stay(s, Assessing(p.call, p.carried, p.present))
    case Assess(_, _) => if p.Assessing? then AssessMove(world, s, ev, p) else Stay(s, p)
    case Persist(_, _) => if p.Persisting? then PersistMove(s, ev, p) else Stay(s, p)
    case Interrupt(_) => if p.AtGate? then InterruptMove(s, ev, p) else Stay(s, p)
    case Handle(_) =>
      if p.Cleared? then Stay(s, Over(p.call)).(log := s.log.(handled := s.log.handled + {p.call})) else Stay(s, p)
    case Decide(_, id, verdict) =>
      if p.Unborn? && id in s.rows && s.rows[id].status == Pending then
        Stay(s, Resuming(s.rows[id].call, verdict)).(rows := s.rows[id := s.rows[id].(status := Decided(verdict))])
      else Stay(s, p)
    case Deliver(e) =>
      if p.Resuming? then
        Stay(s, Starting(p.call, Some(p.verdict), true)).(
          verdicts := s.verdicts[p.call := p.verdict], log := s.log.(delivered := s.log.delivered + {e}))
      else Stay(s, p)
    case Crash(_) => if p.Unborn? then Stay(s, p) else Stay(s, Over(p.call))
  }

  ghost function Step(world: World, s: State, ev: Event): State {
    var m := MoveOf(world, s, ev);
    State(m.rows, s.phases[ev.e := m.phase], m.verdicts, m.log)
  }

  const START := State(map[], map[], map[], Log({}, {}, {}, {}, {}, {}, {}))

  ghost function Play(world: World, s: State, events: seq<Event>): State
    decreases events
  {
    if events == [] then s else Play(world, Step(world, s, events[0]), events[1..])
  }

  /** The state after a schedule, whatever it is. */
  ghost function Run(world: World, events: seq<Event>): State {
    Play(world, START, events)
  }

  lemma {:induction false} PlayAppend(world: World, s: State, a: seq<Event>, b: seq<Event>)
    ensures Play(world, s, a + b) == Play(world, Play(world, s, a), b)
    decreases a
  {
    if a == [] {
      assert a + b == b;
    } else {
      assert (a + b)[0] == a[0] && (a + b)[1..] == a[1..] + b;
      PlayAppend(world, Step(world, s, a[0]), a[1..], b);
    }
  }

  // ----- the invariant -----------------------------------------------------------

  /** The call's row says so. */
  ghost predicate RowSays(rows: Rows, call: CallId, verdict: Verdict) {
    exists id :: IsRowOf(rows, call, id) && rows[id].status == Decided(verdict)
  }

  function Carries(p: Phase): Option<Verdict> {
    if p.Starting? || p.Assessing? || p.Persisting? || p.AtGate? then p.carried else None
  }

  /** What an execution carries is what its call's row says, and it may only be past the gate
      when the call was once cleared, or is approved. */
  ghost predicate Honest(s: State, p: Phase) {
    && (Carries(p).Some? ==> p.call in s.verdicts && s.verdicts[p.call] == Carries(p).value)
    && (p.AtGate? ==> IsRowOf(s.rows, p.call, p.id))
    && (p.Resuming? ==> RowSays(s.rows, p.call, p.verdict))
    && (p.Cleared? ==> p.call in s.log.cleared || RowSays(s.rows, p.call, Approve))
  }

  ghost predicate Good(s: State) {
    && OneRowPerCall(s.rows)
    && (forall c | c in s.verdicts :: RowSays(s.rows, c, s.verdicts[c]))
    && (forall e :: Honest(s, PhaseOf(s, e)))
    && (forall c | c in s.log.handled :: c in s.log.cleared || RowSays(s.rows, c, Approve))
    && (forall i | i in s.log.interrupts :: IsRowOf(s.rows, i.1, i.2))
  }

  lemma StepKeepsOneRow(world: World, s: State, ev: Event)
    requires Good(s)
    ensures OneRowPerCall(MoveOf(world, s, ev).rows)
  {
    var p := PhaseOf(s, ev.e);
    if ev.Persist? && p.Persisting? && !Taken(s.rows, p.call) && ev.newId !in s.rows {
      CreatingKeepsOneRowPerCall(s.rows, p.call, ev.newId, Pending);
    }
  }

  /** Rows stay, and what they say once decided stays too. */
  lemma RowsPersist(world: World, s: State, ev: Event, c: CallId)
    ensures forall id | IsRowOf(s.rows, c, id) :: IsRowOf(MoveOf(world, s, ev).rows, c, id)
    ensures forall v | RowSays(s.rows, c, v) :: RowSays(MoveOf(world, s, ev).rows, c, v)
  {
    forall v | RowSays(s.rows, c, v) ensures RowSays(MoveOf(world, s, ev).rows, c, v) {
      var id :| IsRowOf(s.rows, c, id) && s.rows[id].status == Decided(v);
      assert IsRowOf(MoveOf(world, s, ev).rows, c, id);
    }
  }

  /** A call's row says one thing only. */
  lemma RowSaysOneThing(rows: Rows, c: CallId, v: Verdict, w: Verdict)
    requires OneRowPerCall(rows) && RowSays(rows, c, v) && RowSays(rows, c, w)
    ensures v == w
  {
  }

  /** What an event leaves alone: another execution e, its traces in the log, rows and verdicts. */
  ghost predicate Unmoved(s: State, t: State, e: Exec) {
    && PhaseOf(t, e) == PhaseOf(s, e) && s.log.cleared <= t.log.cleared
    && (e in t.log.passed <==> e in s.log.passed) && (e in t.log.delivered <==> e in s.log.delivered)
    && (e in t.log.restarted <==> e in s.log.restarted) && (e in t.log.assessed <==> e in s.log.assessed)
    && (forall c, id | IsRowOf(s.rows, c, id) :: IsRowOf(t.rows, c, id))
    && (forall c, v | RowSays(s.rows, c, v) :: RowSays(t.rows, c, v))
  }

  lemma OthersUnmoved(world: World, s: State, ev: Event, e: Exec)
    requires e != ev.e
    ensures Unmoved(s, Step(world, s, ev), e)
  {
    var t := Step(world, s, ev);
    forall c, id | IsRowOf(s.rows, c, id) ensures IsRowOf(t.rows, c, id) { RowsPersist(world, s, ev, c); }
    forall c, v | RowSays(s.rows, c, v) ensures RowSays(t.rows, c, v) { RowsPersist(world, s, ev, c); }
  }

  lemma VerdictsStayTrue(world: World, s: State, ev: Event, c: CallId)
    requires Good(s)
    ensures var m := MoveOf(world, s, ev);
      && (c in s.verdicts ==> c in m.verdicts && m.verdicts[c] == s.verdicts[c])
      && (c in m.verdicts ==> RowSays(m.rows, c, m.verdicts[c]))
  {
    RowsPersist(world, s, ev, c);
    var p := PhaseOf(s, ev.e);
    assert Honest(s, p);
    if ev.Deliver? && p.Resuming? && p.call == c && c in s.verdicts {
      RowSaysOneThing(s.rows, c, p.verdict, s.verdicts[c]);
    }
  }

  lemma DeciderIsHonest(world: World, s: State, ev: Event)
    requires Good(s) && (ev.Decide? || ev.Deliver?)
    ensures Honest(Step(world, s, ev), MoveOf(world, s, ev).phase)
  {
    var p, m := PhaseOf(s, ev.e), MoveOf(world, s, ev);
    assert Honest(s, p);
    if ev.Decide? && p.Unborn? && m.phase.Resuming? { assert IsRowOf(m.rows, m.phase.call, ev.id); }
  }

  lemma PersisterIsHonest(world: World, s: State, ev: Event)
    requires Good(s) && ev.Persist?
    ensures Honest(Step(world, s, ev), MoveOf(world, s, ev).phase)
  {
    var p := PhaseOf(s, ev.e);
    assert Honest(s, p);
    if !p.Unborn? { RowsPersist(world, s, ev, p.call); }
  }

  lemma ReaderIsHonest(world: World, s: State, ev: Event)
    requires Good(s) && (ev.Start? || ev.Find? || ev.Crash?)
    ensures Honest(Step(world, s, ev), MoveOf(world, s, ev).phase)
  {
    assert Honest(s, PhaseOf(s, ev.e));
  }

  lemma PasserIsHonest(world: World, s: State, ev: Event)
    requires Good(s) && (ev.Assess? || ev.Interrupt? || ev.Handle?)
    ensures Honest(Step(world, s, ev), MoveOf(world, s, ev).phase)
  {
    assert Honest(s, PhaseOf(s, ev.e));
  }

  lemma MoverStaysHonest(world: World, s: State, ev: Event)
    requires Good(s)
    ensures Honest(Step(world, s, ev), MoveOf(world, s, ev).phase)
  {
    match ev
    case Decide(_, _, _) => DeciderIsHonest(world, s, ev);
    case Deliver(_) => DeciderIsHonest(world, s, ev);
    case Persist(_, _) => PersisterIsHonest(world, s, ev);
    case Start(_, _, _) => ReaderIsHonest(world, s, ev);
    case Find(_) => ReaderIsHonest(world, s, ev);
    case Crash(_) => ReaderIsHonest(world, s, ev);
    case _ => PasserIsHonest(world, s, ev);
  }

  lemma OthersStayHonest(s: State, t: State, e: Exec)
    requires Unmoved(s, t, e) && Honest(s, PhaseOf(s, e))
    requires forall c | c in s.verdicts :: c in t.verdicts && t.verdicts[c] == s.verdicts[c]
    ensures Honest(t, PhaseOf(t, e))
  {
  }

  lemma EveryoneStaysHonest(world: World, s: State, ev: Event, t: State)
    requires Good(s) && t == Step(world, s, ev)
    requires forall c | c in s.verdicts :: c in t.verdicts && t.verdicts[c] == s.verdicts[c]
    ensures forall e :: Honest(t, PhaseOf(t, e))
  {
    MoverStaysHonest(world, s, ev);
    forall e ensures Honest(t, PhaseOf(t, e)) {
      if e != ev.e {
        OthersUnmoved(world, s, ev, e);
        OthersStayHonest(s, t, e);
      }
    }
  }

  lemma HandledStaysJustified(world: World, s: State, ev: Event, c: CallId)
    requires Good(s) && c in MoveOf(world, s, ev).log.handled
    ensures c in MoveOf(world, s, ev).log.cleared || RowSays(MoveOf(world, s, ev).rows, c, Approve)
  {
    RowsPersist(world, s, ev, c);
    assert Honest(s, PhaseOf(s, ev.e));
  }

  lemma InterruptsStayTrue(world: World, s: State, ev: Event, i: (Exec, CallId, ApprovalId))
    requires Good(s) && i in MoveOf(world, s, ev).log.interrupts
    ensures IsRowOf(MoveOf(world, s, ev).rows, i.1, i.2)
  {
    RowsPersist(world, s, ev, i.1);
    assert Honest(s, PhaseOf(s, ev.e));
  }

  lemma AllVerdictsStayTrue(world: World, s: State, ev: Event, t: State)
    requires Good(s) && t == Step(world, s, ev)
    ensures forall c | c in t.verdicts :: RowSays(t.rows, c, t.verdicts[c])
    ensures forall c | c in s.verdicts :: c in t.verdicts && t.verdicts[c] == s.verdicts[c]
  {
    forall c | c in t.verdicts ensures RowSays(t.rows, c, t.verdicts[c]) { VerdictsStayTrue(world, s, ev, c); }
    forall c | c in s.verdicts ensures c in t.verdicts && t.verdicts[c] == s.verdicts[c] {
      VerdictsStayTrue(world, s, ev, c);
    }
  }

  lemma LogStaysTrue(world: World, s: State, ev: Event, t: State)
    requires Good(s) && t == Step(world, s, ev)
    ensures forall c | c in t.log.handled :: c in t.log.cleared || RowSays(t.rows, c, Approve)
    ensures forall i | i in t.log.interrupts :: IsRowOf(t.rows, i.1, i.2)
  {
    forall c | c in t.log.handled ensures c in t.log.cleared || RowSays(t.rows, c, Approve) {
      HandledStaysJustified(world, s, ev, c);
    }
    forall i | i in t.log.interrupts ensures IsRowOf(t.rows, i.1, i.2) { InterruptsStayTrue(world, s, ev, i); }
  }

  lemma StepKeepsGood(world: World, s: State, ev: Event)
    requires Good(s)
    ensures Good(Step(world, s, ev))
  {
    var t := Step(world, s, ev);
    StepKeepsOneRow(world, s, ev);
    AllVerdictsStayTrue(world, s, ev, t);
    EveryoneStaysHonest(world, s, ev, t);
    LogStaysTrue(world, s, ev, t);
  }

  lemma {:induction false} PlayKeepsGood(world: World, s: State, events: seq<Event>)
    requires Good(s)
    ensures Good(Play(world, s, events))
    decreases events
  {
    if events != [] {
      StepKeepsGood(world, s, events[0]);
      PlayKeepsGood(world, Step(world, s, events[0]), events[1..]);
    }
  }

  // ----- what every run keeps -----------------------------------------------------

  lemma RunIsGood(world: World, events: seq<Event>)
    ensures Good(Run(world, events))
  {
    PlayKeepsGood(world, START, events);
  }

  /** At most one approval per call, and every interrupt ever raised for the call names it. */
  lemma OneApprovalPerCall(world: World, events: seq<Event>)
    ensures var s := Run(world, events);
      && OneRowPerCall(s.rows)
      && forall i, j | i in s.log.interrupts && j in s.log.interrupts && i.1 == j.1 :: i.2 == j.2 && IsRowOf(s.rows, i.1, i.2)
  {
    RunIsGood(world, events);
  }

  /** A gated call reaches the handler only when it was once decided to need no approval, or
      when its approval says approved. */
  lemma HandledOnlyWithLeave(world: World, events: seq<Event>, c: CallId)
    requires c in Run(world, events).log.handled
    ensures c in Run(world, events).log.cleared || RowSays(Run(world, events).rows, c, Approve)
  {
    RunIsGood(world, events);
  }

  /** After a rejection, a call that was never cleared has not run, and never will. */
  lemma RejectedNeverRuns(world: World, events: seq<Event>, more: seq<Event>, c: CallId)
    requires RowSays(Run(world, events).rows, c, Reject) && c !in Run(world, events + more).log.cleared
    ensures c !in Run(world, events + more).log.handled
  {
    PlayAppend(world, START, events, more);
    RunIsGood(world, events + more);
    PlayKeepsVerdict(world, Run(world, events), more, c, Reject);
    if RowSays(Run(world, events + more).rows, c, Approve) {
      RowSaysOneThing(Run(world, events + more).rows, c, Approve, Reject);
    }
  }

  lemma {:induction false} PlayKeepsVerdict(world: World, s: State, events: seq<Event>, c: CallId, v: Verdict)
    requires RowSays(s.rows, c, v)
    ensures RowSays(Play(world, s, events).rows, c, v)
    decreases events
  {
    if events != [] {
      RowsPersist(world, s, events[0], c);
      PlayKeepsVerdict(world, Step(world, s, events[0]), events[1..], c, v);
    }
  }

  // ----- later replays ask nothing again ---------------------------------------------

  /** An execution that started after the call had a row. */
  ghost predicate Settled(s: State, c: CallId, e: Exec) {
    var p := PhaseOf(s, e);
    && Taken(s.rows, c) && (p.Unborn? ==> e !in s.log.assessed)
    && (!p.Unborn? && p.call == c ==> !p.Assessing? && !p.Persisting? && e !in s.log.assessed)
  }

  lemma StepKeepsSettled(world: World, s: State, ev: Event, c: CallId, e: Exec)
    requires Settled(s, c, e)
    ensures Settled(Step(world, s, ev), c, e)
  {
    RowsPersist(world, s, ev, c);
    assert IsRowOf(s.rows, c, RowOf(s.rows, c));
  }

  lemma {:induction false} PlayKeepsSettled(world: World, s: State, events: seq<Event>, c: CallId, e: Exec)
    requires Settled(s, c, e)
    ensures Settled(Play(world, s, events), c, e)
    decreases events
  {
    if events != [] {
      StepKeepsSettled(world, s, events[0], c, e);
      PlayKeepsSettled(world, Step(world, s, events[0]), events[1..], c, e);
    }
  }

  /** Only executions that began are in the log. */
  lemma {:induction false} UnbornUnassessed(world: World, s: State, events: seq<Event>)
    requires forall e | e in s.log.assessed :: !PhaseOf(s, e).Unborn?
    ensures forall e | e in Play(world, s, events).log.assessed :: !PhaseOf(Play(world, s, events), e).Unborn?
    decreases events
  {
    if events != [] {
      StepKeepsUnbornUnassessed(world, s, events[0]);
      UnbornUnassessed(world, Step(world, s, events[0]), events[1..]);
    }
  }

  lemma StepKeepsUnbornUnassessed(world: World, s: State, ev: Event)
    requires forall e | e in s.log.assessed :: !PhaseOf(s, e).Unborn?
    ensures forall e | e in Step(world, s, ev).log.assessed :: !PhaseOf(Step(world, s, ev), e).Unborn?
  {
    var t := Step(world, s, ev);
    forall e | e in t.log.assessed ensures !PhaseOf(t, e).Unborn? {
      if e != ev.e { OthersUnmoved(world, s, ev, e); }
    }
  }

  /** Once a call has an approval, no later execution for it assesses the risk again: whatever
      the assessment would answer by then cannot change the outcome. */
  lemma LaterReplaysDoNotAssess(world: World, events: seq<Event>, more: seq<Event>, c: CallId, e: Exec)
    requires Taken(Run(world, events).rows, c) && PhaseOf(Run(world, events), e).Unborn?
    ensures var p := PhaseOf(Run(world, events + more), e);
      !p.Unborn? && p.call == c ==> e !in Run(world, events + more).log.assessed
  {
    UnbornUnassessed(world, START, events);
    PlayAppend(world, START, events, more);
    PlayKeepsSettled(world, Run(world, events), more, c, e);
  }

  // ----- playing a few events ----------------------------------------------------------------

  lemma PlayThree(world: World, s: State, a: Event, b: Event, c: Event)
    ensures Play(world, s, [a, b, c]) == Step(world, Step(world, Step(world, s, a), b), c)
  {
    var s1 := Step(world, s, a);
    var s2 := Step(world, s1, b);
    assert [a, b, c][1..] == [b, c] && [b, c][1..] == [c] && [c][1..] == [];
    assert Play(world, s2, [c]) == Play(world, Step(world, s2, c), []);
    assert Play(world, s, [a, b, c]) == Play(world, s1, [b, c]);
  }
}
