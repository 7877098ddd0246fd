/** The gate as one call and the gate as a machine: an execution that nothing disturbs is the same. */
module GateExecution {
  import opened TrustGate
  import opened GateProtocol

  /** One execution, from its start to its end, nothing else happening in between. */
  function Alone(e: Exec, c: CallId, present: bool, held: bool, newId: ApprovalId): seq<Event> {
    [Start(e, c, present), Find(e), Assess(e, held)] + [Persist(e, newId), Interrupt(e), Handle(e)]
  }

  /** The calls an outcome adds to those handled. */
  function HandledBy(outcome: Outcome, c: CallId): set<CallId> {
    if outcome.Handled? then {c} else {}
  }

  /** The machine's steps, taken together, are what `Node.Execute` does in one go. */
  lemma AloneIsExecute(
      world: World, s: State, e: Exec, c: CallId, present: bool, held: bool, newId: ApprovalId)
    returns (outcome: Outcome)
    requires OneRowPerCall(s.rows) && newId !in s.rows && PhaseOf(s, e).Unborn? && e !in s.log.assessed
    requires (held ==> c in world.mayHold) && (!held ==> c in world.mayClear)
    ensures var t := Play(world, s, Alone(e, c, present, held, newId));
      && GateResult(s.rows, c, held, newId, present, VerdictOn(s, c), t.rows, e in t.log.assessed, outcome)
      && t.log.handled == s.log.handled + HandledBy(outcome, c)
      && PhaseOf(t, e) == Over(c)
  {
    var first := [Start(e, c, present), Find(e), Assess(e, held)];
    var mid := Play(world, s, first);
    PlayThree(world, s, Start(e, c, present), Find(e), Assess(e, held));
    PlayAppend(world, s, first, [Persist(e, newId), Interrupt(e), Handle(e)]);
    var v := VerdictOn(s, c);
    if Taken(s.rows, c) {
      var id := RowOf(s.rows, c);
      assert PhaseOf(mid, e) == AtGate(c, v, present, id) && mid.rows == s.rows && e !in mid.log.assessed;
      outcome := AtInterrupt(present, id, v);
      GateToEnd(world, mid, e, newId);
    } else if held {
      assert PhaseOf(mid, e) == Persisting(c, v, present) && mid.rows == s.rows && e in mid.log.assessed;
      outcome := AtInterrupt(present, newId, v);
      PersistToEnd(world, mid, e, newId);
    } else {
      assert PhaseOf(mid, e) == Cleared(c) && mid.rows == s.rows && e in mid.log.assessed;
      outcome := Handled;
      PlayThree(world, mid, Persist(e, newId), Interrupt(e), Handle(e));
    }
  }

  lemma GateToEnd(world: World, s: State, e: Exec, newId: ApprovalId)
    requires PhaseOf(s, e).AtGate?
    ensures var p := PhaseOf(s, e);
      var t := Play(world, s, [Persist(e, newId), Interrupt(e), Handle(e)]);
      && t.rows == s.rows && t.log.assessed == s.log.assessed && PhaseOf(t, e) == Over(p.call)
      && t.log.handled == s.log.handled + HandledBy(AtInterrupt(p.present, p.id, p.carried), p.call)
  {
    PlayThree(world, s, Persist(e, newId), Interrupt(e), Handle(e));
  }

  lemma PersistToEnd(world: World, s: State, e: Exec, newId: ApprovalId)
    requires PhaseOf(s, e).Persisting? && !Taken(s.rows, PhaseOf(s, e).call) && newId !in s.rows
    ensures var p := PhaseOf(s, e);
      var t := Play(world, s, [Persist(e, newId), Interrupt(e), Handle(e)]);
      && t.rows == s.rows[newId := Approval(p.call, Pending)] && t.log.assessed == s.log.assessed
      && PhaseOf(t, e) == Over(p.call)
      && t.log.handled == s.log.handled + HandledBy(AtInterrupt(p.present, newId, p.carried), p.call)
  {
    PlayThree(world, s, Persist(e, newId), Interrupt(e), Handle(e));
  }
}
