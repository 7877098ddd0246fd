/** The approval gate in front of every autonomous tool call, and the permission predicate that
    is its sibling on the chat path. */
module TrustGate {
  import opened Orders

  /** What identifies a paused tool call; the unique index is on this triple. */
  datatype CallId = CallId(workspace: string, thread: string, toolCall: string)
  datatype ApprovalId = ApprovalId(text: string)
  datatype ToolName = ToolName(text: string)
  datatype Capability = Capability(text: string)

  datatype Verdict = Approve | Reject
  datatype Status = Pending | Decided(verdict: Verdict)
  datatype Approval = Approval(call: CallId, status: Status)
  type Rows = map<ApprovalId, Approval>

  ghost predicate OneRowPerCall(rows: Rows) {
    forall i, j | i in rows && j in rows && rows[i].call == rows[j].call :: i == j
  }

  ghost predicate IsRowOf(rows: Rows, call: CallId, id: ApprovalId) {
    id in rows && rows[id].call == call
  }

  lemma CreatingKeepsOneRowPerCall(rows: Rows, call: CallId, id: ApprovalId, status: Status)
    requires OneRowPerCall(rows) && id !in rows && forall j :: !IsRowOf(rows, call, j)
    ensures OneRowPerCall(rows[id := Approval(call, status)])
  {
    var after := rows[id := Approval(call, status)];
    forall i, j | i in after && j in after && after[i].call == after[j].call ensures i == j {
      if i != j {
        var other := if i == id then j else i;
        assert IsRowOf(rows, after[other].call, other);
      }
    }
  }

  /** What the registry says about a tool. */
  datatype Lookup = LookupFailed | NoCapability | Found(capability: Capability)

  /** What is fixed for one turn. */
  datatype Turn = Turn(
    gatedSource: bool,
    present: bool,
    builtins: set<ToolName>,
    readOnly: set<Capability>,
    system: set<Capability>,
    preApproved: set<Capability>)

  /** How one execution of the node ends. `Suspended` and `Prepared` name the approval. */
  datatype Outcome = Handled | Blocked | Refused | Suspended(id: ApprovalId) | Prepared(id: ApprovalId)

  /** `interrupt()`: suspends unless a verdict was recorded; nobody present means prepare instead. */
  function AtInterrupt(present: bool, id: ApprovalId, verdict: Option<Verdict>): Outcome {
    if !present then Prepared(id)
    else match verdict
      case None => Suspended(id)
      case Some(Approve) => Handled
      case Some(Reject) => Refused
  }

  /** What one uninterrupted execution of the gated part makes of the rows, whether it asks for an
      assessment, and how it ends. `requiresApproval` is what the assessment would answer, `newId`
      the id a new approval would get. */
  ghost predicate GateResult(
      before: Rows, call: CallId, requiresApproval: bool, newId: ApprovalId, present: bool, verdict: Option<Verdict>,
      after: Rows, asked: bool, outcome: Outcome)
  {
    && (forall id | IsRowOf(before, call, id) ::
          after == before && !asked && outcome == AtInterrupt(present, id, verdict))
    && ((forall id :: !IsRowOf(before, call, id)) ==>
          && asked
          && after == (if requiresApproval then before[newId := Approval(call, Pending)] else before)
          && outcome == if requiresApproval then AtInterrupt(present, newId, verdict) else Handled)
  }

  /** What a gated call that has an approval, or needs one, comes to: it runs only if somebody is
      there and has approved, and everyone waiting is told of the one row there is for it. */
  lemma HeldCallsRunOnlyWhenApproved(
      before: Rows, call: CallId, requiresApproval: bool, newId: ApprovalId, present: bool, verdict: Option<Verdict>,
      after: Rows, asked: bool, outcome: Outcome)
    requires OneRowPerCall(before) && newId !in before
    requires GateResult(before, call, requiresApproval, newId, present, verdict, after, asked, outcome)
    requires requiresApproval || exists id :: id in before && before[id].call == call
    ensures outcome == Handled <==> present && verdict == Some(Approve)
    ensures outcome == Refused <==> present && verdict == Some(Reject)
    ensures outcome.Suspended? <==> present && verdict == None
    ensures outcome.Prepared? <==> !present
    ensures outcome.Suspended? || outcome.Prepared? ==> outcome.id in after && after[outcome.id].call == call
    ensures forall id | id in before :: id in after && after[id] == before[id]
    ensures forall id | id in after && id !in before :: after[id] == Approval(call, Pending)
    ensures asked <==> forall id | id in before :: before[id].call != call
  {
    assert forall id :: IsRowOf(before, call, id) <==> id in before && before[id].call == call;
    if id :| IsRowOf(before, call, id) { assert !asked && outcome == AtInterrupt(present, id, verdict); }
  }

  /** A gated call that was assessed to need none, and has none, runs and leaves no row. */
  lemma ClearedCallsRun(
      before: Rows, call: CallId, newId: ApprovalId, present: bool, verdict: Option<Verdict>,
      after: Rows, asked: bool, outcome: Outcome)
    requires GateResult(before, call, false, newId, present, verdict, after, asked, outcome)
    requires forall id | id in before :: before[id].call != call
    ensures outcome == Handled && after == before && asked
  {
    assert forall id :: !IsRowOf(before, call, id);
  }

  class Node {
    const turn: Turn
    var rows: Rows
    var assessments: nat
    var executed: seq<CallId>

    constructor (turn: Turn, rows: Rows)
      ensures this.turn == turn && this.rows == rows && assessments == 0 && executed == []
    {
      this.turn, this.rows, assessments, executed := turn, rows, 0, [];
    }

    method FindExisting(call: CallId) returns (found: Option<ApprovalId>)
      ensures found.Some? ==> IsRowOf(rows, call, found.value)
      ensures found.None? ==> forall id :: !IsRowOf(rows, call, id)
    {
      var left := rows.Keys;
      while left != {}
        invariant left <= rows.Keys
        invariant forall id | IsRowOf(rows, call, id) :: id in left
      {
        var id :| id in left;
        if rows[id].call == call { return Some(id); }
        left := left - {id};
      }
      found := None;
    }

    method Handle(call: CallId) returns (outcome: Outcome)
      modifies this`executed
      ensures outcome == Handled && executed == old(executed) + [call]
    {
      executed := executed + [call];
      outcome := Handled;
    }

    method Interrupt(call: CallId, id: ApprovalId, verdict: Option<Verdict>) returns (outcome: Outcome)
      modifies this`executed
      ensures outcome == AtInterrupt(turn.present, id, verdict)
      ensures executed == old(executed) + if outcome.Handled? then [call] else []
    {
      if !turn.present { return Prepared(id); }
      match verdict
      case None => outcome := Suspended(id);
      case Some(Approve) => outcome := Handle(call);
      case Some(Reject) => outcome := Refused;
    }

    /** One execution of the node from the top, without interference. */
    method Execute(
        call: CallId, tool: ToolName, lookup: Lookup, requiresApproval: bool, newId: ApprovalId,
        verdict: Option<Verdict>) returns (outcome: Outcome)
      requires OneRowPerCall(rows) && newId !in rows
      modifies this
      ensures OneRowPerCall(rows)
      ensures executed == old(executed) + if outcome.Handled? then [call] else []
      ensures !turn.gatedSource || tool in turn.builtins || lookup.NoCapability?
              || (lookup.Found? && (lookup.capability in turn.system || lookup.capability in turn.readOnly
                                    || lookup.capability in turn.preApproved)) ==>
        outcome == Handled && rows == old(rows) && assessments == old(assessments)
      ensures turn.gatedSource && tool !in turn.builtins && lookup.LookupFailed? ==>
        outcome == Blocked && rows == old(rows) && assessments == old(assessments)
      ensures turn.gatedSource && tool !in turn.builtins && lookup.Found? && lookup.capability !in turn.system
              && lookup.capability !in turn.readOnly && lookup.capability !in turn.preApproved ==>
        && old(assessments) <= assessments <= old(assessments) + 1
        && GateResult(old(rows), call, requiresApproval, newId, turn.present, verdict,
                      rows, assessments > old(assessments), outcome)
    {
      if tool in turn.builtins || !turn.gatedSource {
        outcome := Handle(call);
        return;
      }
      if lookup.LookupFailed? { return Blocked; }
      if lookup.Found? && lookup.capability in turn.system {
        outcome := Handle(call);
        return;
      }
      if lookup.NoCapability? || lookup.capability in turn.readOnly {
        outcome := Handle(call);
        return;
      }
      if lookup.capability in turn.preApproved {
        outcome := Handle(call);
        return;
      }
      var existing := FindExisting(call);
      if existing.Some? {
        outcome := Interrupt(call, existing.value, verdict);
        return;
      }
      assessments := assessments + 1;
      if !requiresApproval {
        outcome := Handle(call);
        return;
      }
      CreatingKeepsOneRowPerCall(rows, call, newId, Pending);
      rows := rows[newId := Approval(call, Pending)];
      outcome := Interrupt(call, newId, verdict);
    }
  }

  // ----- the permission gate ----------------------------------------------------

  datatype BlastRadius = Self | Internal | ExternalSingle | ExternalMultiple | Public
  datatype Assessment = Assessment(reversible: bool, blastRadius: BlastRadius, high: bool)

  /** Whether a write must pause, by the user's mode and the write's risk, if it was assessed. An
      unassessed write and an unknown mode fail closed. */
  predicate ShouldInterrupt(mode: string, a: Option<Assessment>) {
    if mode == "bypass" then false
    else if mode == "ask" then true
    else if mode == "auto" then
      || a.None? || !a.value.reversible || a.value.high
      || a.value.blastRadius in {ExternalSingle, ExternalMultiple, Public}
    else true
  }

  /** What each mode pauses: `bypass` nothing, `auto` whatever is not known to be reversible, harmless
      and confined to the workspace, `ask` and anything unknown everything. */
  lemma PausedByMode(mode: string, a: Option<Assessment>)
    ensures mode == "bypass" ==> !ShouldInterrupt(mode, a)
    ensures mode == "auto" ==>
      (!ShouldInterrupt(mode, a) <==>
       a.Some? && a.value.reversible && !a.value.high && (a.value.blastRadius == Self || a.value.blastRadius == Internal))
    ensures mode != "bypass" && mode != "auto" ==> ShouldInterrupt(mode, a)
  {
  }

  /** The mode a turn really runs under. */
  function EffectiveMode(mode: string, present: bool, bypassEntitled: bool): string {
    if mode !in {"bypass", "ask", "auto"} then "ask"
    else if mode != "bypass" then mode
    else if !present || !bypassEntitled then "auto"
    else "bypass"
  }

  /** A mode is kept, with two exceptions: an unknown one becomes `ask`, and `bypass` becomes `auto`
      for a user who is not there or not entitled to it. */
  lemma ModeIsKeptOrTightened(mode: string, present: bool, entitled: bool)
    ensures mode == "ask" || mode == "auto" ==> EffectiveMode(mode, present, entitled) == mode
    ensures mode == "bypass" ==> EffectiveMode(mode, present, entitled) == if present && entitled then "bypass" else "auto"
    ensures mode != "ask" && mode != "auto" && mode != "bypass" ==> EffectiveMode(mode, present, entitled) == "ask"
  {
  }

  /** Under its effective mode a known mode pauses whatever it would have paused, an unknown one
      everything; and a write that nobody assessed as harmless passes only for an entitled user who
      asked for it and is there. */
  lemma EffectiveModeOnlyTightens(mode: string, present: bool, entitled: bool, a: Option<Assessment>)
    ensures ShouldInterrupt(mode, a) ==> ShouldInterrupt(EffectiveMode(mode, present, entitled), a)
    ensures EffectiveMode(mode, present, entitled) == "bypass" <==> mode == "bypass" && present && entitled
    ensures a.None? ==>
      (!ShouldInterrupt(EffectiveMode(mode, present, entitled), a) <==> mode == "bypass" && present && entitled)
  {
  }
}
