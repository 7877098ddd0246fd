/** What crashes, replays and deliveries do to a gated call: how often the code on either side of the
    interrupt runs. */
module GateReplays {
  import opened TrustGate
  import opened GateProtocol

  // ----- how often the code around the interrupt runs -----------------------------------

  /** e is the execution that decided its call's approval, or was started to deliver that decision. */
  ghost predicate Decider(s: State, e: Exec) {
    PhaseOf(s, e).Resuming? || e in s.log.delivered
  }

  ghost predicate RowDecided(rows: Rows, c: CallId) {
    RowSays(rows, c, Approve) || RowSays(rows, c, Reject)
  }

  ghost predicate Counted(s: State, e: Exec) {
    var p := PhaseOf(s, e);
    && (e in s.log.passed ==> p.Cleared? || p.Over?)
    && (e in s.log.passed || Carries(p).Some? ==> e in s.log.delivered + s.log.restarted)
    && (e in s.log.delivered ==> !p.Unborn? && !p.Resuming?)
    && (e in s.log.restarted ==> !p.Unborn?)
    && (Decider(s, e) ==> RowDecided(s.rows, p.call))
  }

  predicate SameCall(p: Phase, q: Phase) {
    !p.Unborn? && !q.Unborn? && p.call == q.call
  }

  ghost predicate AllCounted(s: State) {
    && (forall e :: Counted(s, e))
    && (forall e, f | Decider(s, e) && Decider(s, f) && SameCall(PhaseOf(s, e), PhaseOf(s, f)) :: e == f)
  }

  /** Whoever decides an approval leaves its row decided. */
  lemma DeciderCounted(world: World, s: State, ev: Event)
    requires Good(s) && Counted(s, ev.e) && (ev.Decide? || ev.Deliver?)
    ensures Counted(Step(world, s, ev), ev.e)
  {
    var p, m := PhaseOf(s, ev.e), MoveOf(world, s, ev);
    if !p.Unborn? {
      RowsPersist(world, s, ev, p.call);
    } else if ev.Decide? && m.phase.Resuming? {
      assert IsRowOf(m.rows, m.phase.call, ev.id);
      assert ev.verdict == Approve || ev.verdict == Reject;
    }
  }

  lemma StarterCounted(world: World, s: State, ev: Event)
    requires Counted(s, ev.e) && (ev.Start? || ev.Find? || ev.Crash?)
    ensures Counted(Step(world, s, ev), ev.e)
  {
  }

  lemma PasserCounted(world: World, s: State, ev: Event)
    requires Counted(s, ev.e) && (ev.Assess? || ev.Interrupt? || ev.Handle?)
    ensures Counted(Step(world, s, ev), ev.e)
  {
  }

  lemma PersisterCounted(world: World, s: State, ev: Event)
    requires Counted(s, ev.e) && ev.Persist?
    ensures Counted(Step(world, s, ev), ev.e)
  {
    var p := PhaseOf(s, ev.e);
    if !p.Unborn? { RowsPersist(world, s, ev, p.call); }
  }

  lemma MoverStaysCounted(world: World, s: State, ev: Event)
    requires Good(s) && Counted(s, ev.e)
    ensures Counted(Step(world, s, ev), ev.e)
  {
    match ev
    case Decide(_, _, _) => DeciderCounted(world, s, ev);
    case Deliver(_) => DeciderCounted(world, s, ev);
    case Persist(_, _) => PersisterCounted(world, s, ev);
    case Start(_, _, _) => StarterCounted(world, s, ev);
    case Find(_) => StarterCounted(world, s, ev);
    case Crash(_) => StarterCounted(world, s, ev);
    case _ => PasserCounted(world, s, ev);
  }

  lemma OthersStayCounted(s: State, t: State, e: Exec)
    requires Counted(s, e) && Unmoved(s, t, e)
    ensures Counted(t, e) && (Decider(t, e) <==> Decider(s, e))
  {
  }

  /** A decision needs a pending row, which nobody else has decided. */
  lemma NewDeciderIsAlone(world: World, s: State, ev: Event, e: Exec)
    requires Good(s) && Counted(s, e) && Decider(s, e) && ev.Decide? && PhaseOf(s, ev.e).Unborn?
    ensures !SameCall(MoveOf(world, s, ev).phase, PhaseOf(s, e))
  {
    if MoveOf(world, s, ev).phase.Resuming? { assert IsRowOf(s.rows, s.rows[ev.id].call, ev.id); }
  }

  lemma OldDeciderStays(world: World, s: State, ev: Event)
    requires Counted(s, ev.e) && Decider(Step(world, s, ev), ev.e)
    ensures (ev.Decide? && PhaseOf(s, ev.e).Unborn?)
      || (Decider(s, ev.e) && SameCall(MoveOf(world, s, ev).phase, PhaseOf(s, ev.e)))
  {
  }

  lemma DeciderIsAlone(world: World, s: State, ev: Event, e: Exec)
    requires Good(s) && AllCounted(s) && e != ev.e && Decider(s, e) && Decider(Step(world, s, ev), ev.e)
    ensures !SameCall(MoveOf(world, s, ev).phase, PhaseOf(s, e))
  {
    assert Counted(s, e) && Counted(s, ev.e);
    OldDeciderStays(world, s, ev);
    if ev.Decide? && PhaseOf(s, ev.e).Unborn? { NewDeciderIsAlone(world, s, ev, e); }
  }

  lemma StepKeepsCounted(world: World, s: State, ev: Event)
    requires Good(s) && AllCounted(s)
    ensures AllCounted(Step(world, s, ev))
  {
    var t := Step(world, s, ev);
    MoverStaysCounted(world, s, ev);
    forall e ensures Counted(t, e) && (e != ev.e ==> (Decider(t, e) <==> Decider(s, e))) {
      if e != ev.e {
        OthersUnmoved(world, s, ev, e);
        OthersStayCounted(s, t, e);
      }
    }
    forall e, f | Decider(t, e) && Decider(t, f) && SameCall(PhaseOf(t, e), PhaseOf(t, f)) ensures e == f {
      if e == ev.e && f != e { DeciderIsAlone(world, s, ev, f); }
      if f == ev.e && f != e { DeciderIsAlone(world, s, ev, e); }
      if e != ev.e && f != ev.e { assert SameCall(PhaseOf(s, e), PhaseOf(s, f)); }
    }
  }

  lemma {:induction false} PlayKeepsCounted(world: World, s: State, events: seq<Event>)
    requires Good(s) && AllCounted(s)
    ensures AllCounted(Play(world, s, events))
    decreases events
  {
    if events != [] {
      StepKeepsGood(world, s, events[0]);
      StepKeepsCounted(world, s, events[0]);
      PlayKeepsCounted(world, Step(world, s, events[0]), events[1..]);
    }
  }

  /** The code after the interrupt runs only in executions started by a verdict's delivery or by
      a replay after it; of the former there is at most one per call. */
  lemma PostInterruptRunsNeedAVerdict(world: World, events: seq<Event>)
    ensures var s := Run(world, events);
      && s.log.passed <= s.log.delivered + s.log.restarted
      && forall e, f | e in s.log.delivered && f in s.log.delivered && SameCall(PhaseOf(s, e), PhaseOf(s, f)) :: e == f
  {
    PlayKeepsCounted(world, START, events);
    var s := Run(world, events);
    forall e | e in s.log.passed ensures e in s.log.delivered + s.log.restarted {
      assert Counted(s, e);
    }
    forall e, f | e in s.log.delivered && f in s.log.delivered && SameCall(PhaseOf(s, e), PhaseOf(s, f)) ensures e == f {
      assert Decider(s, e) && Decider(s, f);
    }
  }

  /** Each execution runs that code at most once: when it is about to, it has not yet. */
  lemma PostInterruptOncePerRun(world: World, events: seq<Event>, e: Exec)
    requires PhaseOf(Run(world, events), e).AtGate?
    ensures e !in Run(world, events).log.passed
  {
    PlayKeepsCounted(world, START, events);
    assert Counted(Run(world, events), e);
  }

  predicate Crashless(events: seq<Event>) {
    forall i | 0 <= i < |events| :: !events[i].Crash?
  }

  /** An execution that delivers a verdict is on its way to the interrupt, or past it. */
  ghost predicate Served(s: State, e: Exec) {
    var p := PhaseOf(s, e);
    e in s.log.delivered ==>
      || ((p.Starting? || p.AtGate?) && p.present && p.carried.Some?)
      || ((p.Cleared? || p.Over?) && e in s.log.passed)
  }

  lemma DeliveredFindItsRow(s: State, e: Exec)
    requires Counted(s, e) && e in s.log.delivered
    ensures Taken(s.rows, PhaseOf(s, e).call)
  {
    assert RowDecided(s.rows, PhaseOf(s, e).call);
  }

  lemma MoverStaysServed(world: World, s: State, ev: Event)
    requires Counted(s, ev.e) && Served(s, ev.e) && !ev.Crash?
    ensures Served(Step(world, s, ev), ev.e)
  {
    if ev.e in s.log.delivered { DeliveredFindItsRow(s, ev.e); }
  }

  lemma OthersStayServed(s: State, t: State, e: Exec)
    requires Served(s, e) && Unmoved(s, t, e)
    ensures Served(t, e)
  {
  }

  lemma StepKeepsServed(world: World, s: State, ev: Event)
    requires AllCounted(s) && (forall e :: Served(s, e)) && !ev.Crash?
    ensures forall e :: Served(Step(world, s, ev), e)
  {
    var t := Step(world, s, ev);
    forall e ensures Served(t, e) {
      if e == ev.e {
        assert Counted(s, e);
        MoverStaysServed(world, s, ev);
      } else {
        OthersUnmoved(world, s, ev, e);
        OthersStayServed(s, t, e);
      }
    }
  }

  lemma {:induction false} PlayKeepsServed(world: World, s: State, events: seq<Event>)
    requires Good(s) && AllCounted(s) && (forall e :: Served(s, e)) && Crashless(events)
    ensures forall e :: Served(Play(world, s, events), e)
    decreases events
  {
    if events != [] {
      StepKeepsGood(world, s, events[0]);
      StepKeepsCounted(world, s, events[0]);
      StepKeepsServed(world, s, events[0]);
      PlayKeepsServed(world, Step(world, s, events[0]), events[1..]);
    }
  }

  /** As long as nothing crashes, an execution that delivers a verdict and ends has run the code
      after the interrupt. */
  lemma DeliveredVerdictsAreActedOn(world: World, events: seq<Event>, e: Exec)
    requires Crashless(events) && e in Run(world, events).log.delivered && PhaseOf(Run(world, events), e).Over?
    ensures e in Run(world, events).log.passed
  {
    PlayKeepsServed(world, START, events);
    assert Served(Run(world, events), e);
  }

  /** The call was started again after its verdict was recorded. */
  ghost predicate Replayed(s: State, c: CallId) {
    exists f :: f in s.log.restarted && !PhaseOf(s, f).Unborn? && PhaseOf(s, f).call == c
  }

  /** Once per delivered verdict: without a crash and without a replay after it, the code after the
      interrupt has run for a call in exactly one execution, the one that delivered. */
  lemma PostInterruptRunsOncePerVerdict(world: World, events: seq<Event>, e: Exec, f: Exec)
    requires Crashless(events) && e in Run(world, events).log.delivered && PhaseOf(Run(world, events), e).Over?
    requires !Replayed(Run(world, events), PhaseOf(Run(world, events), e).call)
    ensures var s := Run(world, events);
      SameCall(PhaseOf(s, e), PhaseOf(s, f)) ==> (f in s.log.passed <==> f == e)
  {
    var s := Run(world, events);
    DeliveredVerdictsAreActedOn(world, events, e);
    PostInterruptRunsNeedAVerdict(world, events);
    if SameCall(PhaseOf(s, e), PhaseOf(s, f)) && f in s.log.passed {
      assert f !in s.log.restarted;
    }
  }

  // ----- what the code before the interrupt may do ------------------------------------

  /** From the top to the interrupt, the row being there already. */
  function Replay(e: Exec, c: CallId): seq<Event> {
    [Start(e, c, true), Find(e), Interrupt(e)]
  }

  /** A call that waits for its verdict, with executions numbered from n on still to come. */
  ghost predicate Waiting(s: State, c: CallId, id: ApprovalId, n: nat) {
    && OneRowPerCall(s.rows) && IsRowOf(s.rows, c, id) && c !in s.verdicts
    && s.log.passed == {} && s.log.handled == {}
    && forall e: Exec | e.number >= n :: PhaseOf(s, e).Unborn?
  }

  lemma ReplayKeepsWaiting(world: World, s: State, c: CallId, id: ApprovalId, n: nat)
    requires Waiting(s, c, id, n)
    ensures var t := Play(world, s, Replay(Exec(n), c));
      Waiting(t, c, id, n + 1) && t.log.interrupts == s.log.interrupts + {(Exec(n), c, id)}
  {
    PlayThree(world, s, Start(Exec(n), c, true), Find(Exec(n)), Interrupt(Exec(n)));
  }

  lemma FirstPassWaits(world: World, c: CallId, id: ApprovalId)
    requires c in world.mayHold
    ensures var e := Exec(0);
      var mid := Play(world, START, [Start(e, c, true), Find(e), Assess(e, true)]);
      Waiting(Play(world, mid, [Persist(e, id), Crash(e), Crash(e)]), c, id, 1)
  {
    var e := Exec(0);
    PlayThree(world, START, Start(e, c, true), Find(e), Assess(e, true));
    var s := Play(world, START, [Start(e, c, true), Find(e), Assess(e, true)]);
    PlayThree(world, s, Persist(e, id), Crash(e), Crash(e));
  }

  lemma OneMoreReplay(world: World, before: seq<Event>, c: CallId, id: ApprovalId, n: nat)
    requires Waiting(Run(world, before), c, id, n)
    ensures var t := Run(world, before + Replay(Exec(n), c));
      Waiting(t, c, id, n + 1) && t.log.interrupts == Run(world, before).log.interrupts + {(Exec(n), c, id)}
  {
    ReplayKeepsWaiting(world, Run(world, before), c, id, n);
    PlayAppend(world, START, before, Replay(Exec(n), c));
  }

  lemma FirstPass(world: World, c: CallId, id: ApprovalId) returns (events: seq<Event>)
    requires c in world.mayHold
    ensures Waiting(Run(world, events), c, id, 1)
  {
    var e := Exec(0);
    var first, second := [Start(e, c, true), Find(e), Assess(e, true)], [Persist(e, id), Crash(e), Crash(e)];
    FirstPassWaits(world, c, id);
    PlayAppend(world, START, first, second);
    events := first + second;
  }

  /** The code before the interrupt can run any number of times without the call running once. */
  lemma {:induction false} PreInterruptRunsAreUnbounded(world: World, c: CallId, id: ApprovalId, n: nat)
    returns (events: seq<Event>)
    requires c in world.mayHold
    ensures Waiting(Run(world, events), c, id, n + 1)
    ensures forall k: nat | 1 <= k <= n :: (Exec(k), c, id) in Run(world, events).log.interrupts
  {
    if n == 0 {
      events := FirstPass(world, c, id);
    } else {
      var before := PreInterruptRunsAreUnbounded(world, c, id, n - 1);
      OneMoreReplay(world, before, c, id, n);
      events := before + Replay(Exec(n), c);
    }
  }
}
