/** When a rejection is final: a clearance leaves no row behind, so a replay asks again. */
module GateRejections {
  import opened TrustGate
  import opened GateProtocol

  /** No schedule both rejects the call and lets it run. */
  ghost predicate RejectionIsFinal(world: World, c: CallId) {
    forall events :: !(RowSays(Run(world, events).rows, c, Reject) && c in Run(world, events).log.handled)
  }

  /** Clearances and approvals only come from the assessment's answers. */
  ghost predicate Answered(world: World, s: State, c: CallId) {
    && (c in s.log.cleared ==> c in world.mayClear)
    && (Taken(s.rows, c) ==> c in world.mayHold)
    && forall e :: PhaseOf(s, e).Persisting? && PhaseOf(s, e).call == c ==> c in world.mayHold
  }

  lemma StepKeepsAnswered(world: World, s: State, ev: Event, c: CallId)
    requires Answered(world, s, c)
    ensures Answered(world, Step(world, s, ev), c)
  {
    var p, t := PhaseOf(s, ev.e), Step(world, s, ev);
    assert p.Persisting? && p.call == c ==> c in world.mayHold;
    forall id | IsRowOf(t.rows, c, id) ensures c in world.mayHold {
      assert IsRowOf(s.rows, c, id) || ev.Persist?;
    }
    forall e | PhaseOf(t, e).Persisting? && PhaseOf(t, e).call == c ensures c in world.mayHold {
      assert e == ev.e || PhaseOf(t, e) == PhaseOf(s, e);
    }
  }

  lemma {:induction false} PlayKeepsAnswered(world: World, s: State, events: seq<Event>, c: CallId)
    requires Answered(world, s, c)
    ensures Answered(world, Play(world, s, events), c)
    decreases events
  {
    if events != [] {
      StepKeepsAnswered(world, s, events[0], c);
      PlayKeepsAnswered(world, Step(world, s, events[0]), events[1..], c);
    }
  }

  /** The first assessment clears the call, and it runs. */
  lemma ClearedCallRuns(world: World, c: CallId, e: Exec)
    requires c in world.mayClear
    ensures var mid := Play(world, START, [Start(e, c, true), Find(e), Assess(e, false)]);
      var t := Play(world, mid, [Handle(e), Crash(e), Crash(e)]);
      t.rows == map[] && c in t.log.handled && forall f | f != e :: PhaseOf(t, f).Unborn?
  {
    PlayThree(world, START, Start(e, c, true), Find(e), Assess(e, false));
    PlayThree(world, Play(world, START, [Start(e, c, true), Find(e), Assess(e, false)]), Handle(e), Crash(e), Crash(e));
  }

  /** Its node being replayed before a checkpoint, the second assessment holds it, and it is rejected. */
  lemma ReplayedCallIsRejected(world: World, s: State, c: CallId, e: Exec, f: Exec, id: ApprovalId)
    requires c in world.mayHold && s.rows == map[] && e != f && PhaseOf(s, e).Unborn? && PhaseOf(s, f).Unborn?
    ensures var mid := Play(world, s, [Start(e, c, true), Find(e), Assess(e, true)]);
      var t := Play(world, mid, [Persist(e, id), Interrupt(e), Decide(f, id, Reject)]);
      IsRowOf(t.rows, c, id) && t.rows[id].status == Decided(Reject) && s.log.handled <= t.log.handled
  {
    PlayThree(world, s, Start(e, c, true), Find(e), Assess(e, true));
    var mid := Play(world, s, [Start(e, c, true), Find(e), Assess(e, true)]);
    assert mid.rows == map[] && PhaseOf(mid, e).Persisting? && PhaseOf(mid, e).call == c && PhaseOf(mid, f).Unborn?;
    HeldCallIsRejected(world, mid, c, e, f, id);
  }

  lemma HeldCallIsRejected(world: World, s: State, c: CallId, e: Exec, f: Exec, id: ApprovalId)
    requires s.rows == map[] && PhaseOf(s, e).Persisting? && PhaseOf(s, e).call == c && e != f && PhaseOf(s, f).Unborn?
    ensures var t := Play(world, s, [Persist(e, id), Interrupt(e), Decide(f, id, Reject)]);
      IsRowOf(t.rows, c, id) && t.rows[id].status == Decided(Reject) && s.log.handled <= t.log.handled
  {
    PlayThree(world, s, Persist(e, id), Interrupt(e), Decide(f, id, Reject));
  }

  lemma RunThenReject(world: World, c: CallId) returns (events: seq<Event>)
    requires c in world.mayClear && c in world.mayHold
    ensures RowSays(Run(world, events).rows, c, Reject) && c in Run(world, events).log.handled
  {
    var e, f, g, id := Exec(0), Exec(1), Exec(2), ApprovalId("a");
    var a, b := [Start(e, c, true), Find(e), Assess(e, false)], [Handle(e), Crash(e), Crash(e)];
    var a', b' := [Start(f, c, true), Find(f), Assess(f, true)], [Persist(f, id), Interrupt(f), Decide(g, id, Reject)];
    ClearedCallRuns(world, c, e);
    PlayAppend(world, START, a, b);
    var s := Run(world, a + b);
    ReplayedCallIsRejected(world, s, c, f, g, id);
    PlayAppend(world, s, a', b');
    PlayAppend(world, START, a + b, a' + b');
    events := a + b + (a' + b');
  }

  /** A clearance is not recorded, so a replay asks again. Rejections are final exactly when the
      assessment never both clears and holds the call. */
  lemma RejectionIsFinalIffAnswersAgree(world: World, c: CallId)
    ensures RejectionIsFinal(world, c) <==> !(c in world.mayClear && c in world.mayHold)
  {
    if c in world.mayClear && c in world.mayHold {
      var events := RunThenReject(world, c);
    } else {
      forall events
        ensures !(RowSays(Run(world, events).rows, c, Reject) && c in Run(world, events).log.handled)
      {
        PlayKeepsAnswered(world, START, events, c);
        if RowSays(Run(world, events).rows, c, Reject) && c in Run(world, events).log.handled {
          HandledOnlyWithLeave(world, events, c);
          RunIsGood(world, events);
          if RowSays(Run(world, events).rows, c, Approve) { RowSaysOneThing(Run(world, events).rows, c, Approve, Reject); }
        }
      }
    }
  }

  /** A process that dies between the clearance and the handler leaves nothing behind: the call has
      not run, and its replay is assessed again and may be held. */
  lemma CrashedClearanceIsForgotten(world: World, c: CallId) returns (events: seq<Event>)
    requires c in world.mayClear && c in world.mayHold
    ensures var s := Run(world, events);
      c in s.log.cleared && c !in s.log.handled && exists id :: IsRowOf(s.rows, c, id) && s.rows[id].status == Pending
  {
    var e, f, id := Exec(0), Exec(1), ApprovalId("a");
    var a := [Start(e, c, true), Find(e), Assess(e, false)];
    var b := [Crash(e), Handle(e), Start(f, c, true)];
    var d := [Find(f), Assess(f, true), Persist(f, id)];
    PlayThree(world, START, Start(e, c, true), Find(e), Assess(e, false));
    var s1 := Run(world, a);
    assert PhaseOf(s1, e) == Cleared(c) && s1.rows == map[] && c !in s1.log.handled && PhaseOf(s1, f).Unborn?;
    PlayThree(world, s1, Crash(e), Handle(e), Start(f, c, true));
    var s2 := Play(world, s1, b);
    assert PhaseOf(s2, f).Starting? && PhaseOf(s2, f).call == c && s2.rows == map[] && c !in s2.log.handled;
    PlayThree(world, s2, Find(f), Assess(f, true), Persist(f, id));
    PlayAppend(world, START, a, b);
    PlayAppend(world, START, a + b, d);
    events := a + b + d;
    assert IsRowOf(Run(world, events).rows, c, id);
  }
}
