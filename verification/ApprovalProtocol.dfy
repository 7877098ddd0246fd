/** Every interleaving of requests on one prepared approval: decisions under the row lock, edits
    without it, and replays of the recorded action that outlive the lock. */
module ApprovalProtocol {
  import opened Orders
  import opened Approvals
  import Ledger = IdempotencyLedger

  datatype Request = Request(number: int)

  /** Where a request stands between two of its transactions. */
  datatype Phase =
    | Unborn
    | Editing(edit: Edit)                              // saw a pending row, about to write
    | Flying(decision: Decision)                       // approved, about to replay the action
    | Reserved(decision: Decision)                     // holds the ledger's reservation, may call the tool
    | Answered(decision: Decision, ok: bool)           // the tool has answered, about to record that
    | Landed(decision: Decision, outcome: Outcome)     // about to write the outcome
    | Done

  /** The row, the requests, the ledger's row for this approval, and how often the action took effect. */
  datatype State = State(row: Row, phases: map<Request, Phase>, ledger: Option<Ledger.Status>, effects: nat)

  /** What the outside is known not to do. */
  datatype World = World(
    clean: bool,     // a tool call that answers with an error, or raises, has had no effect
    records: bool,   // recording a successful call in the ledger does not raise
    certain: bool)   // a ledger write that raises has not been committed

  /** A crash is the death of a request, or a failure to commit its outcome. */
  datatype Event =
    | Decide(r: Request, intent: Intent, decision: Decision, expirySticks: bool)
    | ReadEdit(r: Request, edit: Edit)
    | WriteEdit(r: Request)
    | FailEarly(r: Request, outcome: Outcome)        // a policy refusal, a held lock, dead infrastructure
    | Reserve(r: Request)
    | Return(r: Request, ok: bool, happened: bool)
    | Raise(r: Request, happened: bool)
    | Record(r: Request)
    | RecordRaises(r: Request, committed: bool)
    | WriteOutcome(r: Request)
    | Crash(r: Request)

  function PhaseOf(s: State, r: Request): Phase {
    if r in s.phases then s.phases[r] else Unborn
  }

  datatype Move = Move(row: Row, phase: Phase, ledger: Option<Ledger.Status>, effects: nat)

  function Stay(s: State, p: Phase): Move {
    Move(s.row, p, s.ledger, s.effects)
  }

  function DecideMove(s: State, ev: Event): Move
    requires ev.Decide?
  {
    var answer := DecisionAnswer(s.row, ev.intent, ev.decision.at);
    Stay(s, if answer == Replay then Flying(ev.decision) else Done).(
      row := DecidedRow(s.row, ev.intent, ev.decision, ev.expirySticks))
  }

  /** `reserve`: a failed ledger row is reopened. A commit of the reservation that raises after it
      has taken hold is this event and a Raise without effect, whatever `certain` says. */
  function ReserveMove(s: State, p: Phase): Move
    requires p.Flying?
  {
    match s.ledger
    case Some(Completed) => Stay(s, Landed(p.decision, AlreadyRan))
    case Some(InFlight) => Stay(s, Landed(p.decision, Transient("a prior attempt is still in flight")))
    case _ => Stay(s, Reserved(p.decision)).(ledger := Some(Ledger.InFlight))
  }

  /** A call that ended badly took effect if it did, and the tool is one of which that can happen. */
  function Effects(w: World, s: State, ok: bool, happened: bool): nat {
    if ok || (happened && !w.clean) then s.effects + 1 else s.effects
  }

  /** `record_success` or `mark_failed`. */
  function LedgerAfter(ok: bool): Option<Ledger.Status> {
    Some(if ok then Ledger.Completed else Ledger.Failed)
  }

  predicate EarlyOutcome(o: Outcome) {
    o.Refused? || o.Transient? || o.Raised?
  }

  /** The events inside the reservation; each does nothing where it does not fit. */
  function ReplayMove(w: World, s: State, ev: Event, p: Phase): Move
    requires ev.Return? || ev.Raise? || ev.Record? || ev.RecordRaises?
  {
    match ev
    case Return(_, ok, happened) =>
      if p.Reserved? then Move(s.row, Answered(p.decision, ok), s.ledger, Effects(w, s, ok, happened)) else Stay(s, p)
    case Raise(_, happened) =>
      if p.Reserved? then
        Move(s.row, Landed(p.decision, Raised("could not run")), s.ledger, Effects(w, s, false, happened))
      else Stay(s, p)
    case Record(_) =>
      if p.Answered? then
        Stay(s, Landed(p.decision, if p.ok then Ran else ToolFailed("error"))).(ledger := LedgerAfter(p.ok))
      else Stay(s, p)
    case RecordRaises(_, committed) =>
      if p.Answered? && !(p.ok && w.records) then
        Stay(s, Landed(p.decision, Raised("could not run"))).(
          ledger := if committed && !w.certain then LedgerAfter(p.ok) else s.ledger)
      else Stay(s, p)
  }

  /** An event that does not fit its request's phase changes nothing. */
  function MoveOf(w: World, s: State, ev: Event): Move {
    var p := PhaseOf(s, ev.r);
    match ev
    case Decide(_, _, _, _) => if p.Unborn? then DecideMove(s, ev) else Stay(s, p)
    case ReadEdit(_, edit) =>
      if p.Unborn? then Stay(s, if s.row.status == Pending then Editing(edit) else Done) else Stay(s, p)
    case WriteEdit(_) =>
      if p.Editing? then Stay(s, Done).(row := s.row.(display := Applied(s.row.display, p.edit))) else Stay(s, p)
    case FailEarly(_, o) => if p.Flying? && EarlyOutcome(o) then Stay(s, Landed(p.decision, o)) else Stay(s, p)
    case Reserve(_) => if p.Flying? then ReserveMove(s, p) else Stay(s, p)
    case WriteOutcome(_) => if p.Landed? then Stay(s, Done).(row := SettledRow(s.row, p.outcome)) else Stay(s, p)
    case Crash(_) => if p.Unborn? then Stay(s, p) else Stay(s, Done)
    case _ => ReplayMove(w, s, ev, p)
  }

  function Step(w: World, s: State, ev: Event): State {
    var m := MoveOf(w, s, ev);
    State(m.row, s.phases[ev.r := m.phase], m.ledger, m.effects)
  }

  function Play(w: World, s: State, events: seq<Event>): State
    decreases events
  {
    if events == [] then s else Play(w, Step(w, s, events[0]), events[1..])
  }

  /** A prepared row as the gate created it. */
  predicate Fresh(row: Row) {
    row.status == Pending && row.decision == None && row.prepared && !row.chat
  }

  function Start(row: Row): State {
    State(row, map[], None, 0)
  }

  /** The state after a schedule, whatever it is. */
  function Run(w: World, row: Row, events: seq<Event>): State {
    Play(w, Start(row), events)
  }

  lemma {:induction false} PlayAppend(w: World, s: State, a: seq<Event>, b: seq<Event>)
    ensures Play(w, s, a + b) == Play(w, Play(w, s, a), b)
    decreases a
  {
    if a == [] {
      assert a + b == b;
    } else {
      assert (a + b)[0] == a[0] && (a + b)[1..] == a[1..] + b;
      PlayAppend(w, Step(w, s, a[0]), a[1..], b);
    }
  }

  // ----- the invariant -------------------------------------------------------------

  /** What keeps a replay from being repeated. */
  predicate Once(w: World) {
    w.clean || w.certain
  }

  /** What keeps an effect from going unrecorded. */
  predicate Kind(w: World) {
    w.clean && w.records
  }

  /** The request is between its approval and the record of the replay's outcome. */
  predicate InFlight(p: Phase) {
    p.Flying? || p.Reserved? || p.Answered? || p.Landed?
  }

  /** The outcome says that the action has run. */
  predicate Success(o: Outcome) {
    o == Ran || o == AlreadyRan
  }

  /** What a flight may rely on: its own decision stands, and the ledger is where it left it. */
  predicate Fit(w: World, s: State, p: Phase) {
    && (InFlight(p) ==> s.row.status == Approved && s.row.decision == Some(p.decision))
    && (p.Flying? ==> (Once(w) && s.ledger == Some(Ledger.Failed) ==> s.effects == 0) && (Kind(w) ==> s.effects == 0))
    && (p.Reserved? ==> s.ledger == Some(Ledger.InFlight) && (Once(w) ==> s.effects == 0))
    && (p.Answered? ==> s.ledger == Some(Ledger.InFlight) && (p.ok ==> s.effects >= 1)
                        && (w.clean && !p.ok ==> s.effects == 0))
    && (p.Landed? ==> LandedFits(w, s, p.outcome))
  }

  predicate LandedFits(w: World, s: State, o: Outcome) {
    && (Success(o) ==> s.ledger == Some(Ledger.Completed))
    && (Kind(w) && !Success(o) ==> s.effects == 0)
    && (Once(w) && s.ledger == Some(Ledger.Failed) && (o.Raised? || o.Transient?) ==> s.effects == 0)
  }

  predicate RowFits(s: State, row: Row) {
    && s.row.(status := row.status, decision := row.decision, display := row.display, error := row.error) == row
    && (s.row.decision.None? <==> s.row.status == Pending || s.row.status == Expired)
  }

  predicate LedgerFits(w: World, s: State) {
    && (s.ledger == None ==> s.effects == 0)
    && (s.ledger == Some(Ledger.Completed) ==> s.effects >= 1)
    && (s.row.status == Executed ==> s.ledger == Some(Ledger.Completed))
    && (w.clean && s.ledger == Some(Ledger.Failed) ==> s.effects == 0)
    && (Once(w) ==> s.effects <= 1)
    && (Once(w) && s.ledger == Some(Ledger.Failed) && s.row.status != Approved && s.row.status != Failed ==> s.effects == 0)
    && (Kind(w) && s.row.status != Approved && s.row.status != Executed ==> s.effects == 0)
  }

  ghost predicate Good(w: World, s: State, row: Row) {
    && RowFits(s, row) && LedgerFits(w, s)
    && (forall r :: Fit(w, s, PhaseOf(s, r)))
    && (forall q, r | InFlight(PhaseOf(s, q)) && InFlight(PhaseOf(s, r)) :: q == r)
  }

  lemma DecisionStaysFit(w: World, s: State, ev: Event, row: Row)
    requires Fresh(row) && Good(w, s, row) && (ev.Decide? || ev.ReadEdit? || ev.WriteEdit? || ev.Crash?)
    ensures var t := Step(w, s, ev); Fit(w, t, PhaseOf(t, ev.r)) && RowFits(t, row) && LedgerFits(w, t)
  {
    assert Fit(w, s, PhaseOf(s, ev.r));
  }

  lemma StartStaysFit(w: World, s: State, ev: Event, row: Row)
    requires Fresh(row) && Good(w, s, row) && (ev.FailEarly? || ev.Reserve?)
    ensures var t := Step(w, s, ev); Fit(w, t, PhaseOf(t, ev.r)) && RowFits(t, row) && LedgerFits(w, t)
  {
    assert Fit(w, s, PhaseOf(s, ev.r));
  }

  lemma AnswerStaysFit(w: World, s: State, ev: Event, row: Row)
    requires Fresh(row) && Good(w, s, row) && (ev.Return? || ev.Raise?)
    ensures var t := Step(w, s, ev); Fit(w, t, PhaseOf(t, ev.r)) && RowFits(t, row) && LedgerFits(w, t)
  {
    assert Fit(w, s, PhaseOf(s, ev.r));
  }

  lemma RecordStaysFit(w: World, s: State, ev: Event, row: Row)
    requires Fresh(row) && Good(w, s, row) && (ev.Record? || ev.RecordRaises?)
    ensures var t := Step(w, s, ev); Fit(w, t, PhaseOf(t, ev.r)) && RowFits(t, row) && LedgerFits(w, t)
  {
    assert Fit(w, s, PhaseOf(s, ev.r));
  }

  lemma OutcomeStaysFit(w: World, s: State, ev: Event, row: Row)
    requires Fresh(row) && Good(w, s, row) && ev.WriteOutcome?
    ensures var t := Step(w, s, ev); Fit(w, t, PhaseOf(t, ev.r)) && RowFits(t, row) && LedgerFits(w, t)
  {
    assert Fit(w, s, PhaseOf(s, ev.r));
  }

  lemma MoverStaysFit(w: World, s: State, ev: Event, row: Row)
    requires Fresh(row) && Good(w, s, row)
    ensures var t := Step(w, s, ev); Fit(w, t, PhaseOf(t, ev.r)) && RowFits(t, row) && LedgerFits(w, t)
  {
    match ev
    case FailEarly(_, _) => StartStaysFit(w, s, ev, row);
    case Reserve(_) => StartStaysFit(w, s, ev, row);
    case Return(_, _, _) => AnswerStaysFit(w, s, ev, row);
    case Raise(_, _) => AnswerStaysFit(w, s, ev, row);
    case Record(_) => RecordStaysFit(w, s, ev, row);
    case RecordRaises(_, _) => RecordStaysFit(w, s, ev, row);
    case WriteOutcome(_) => OutcomeStaysFit(w, s, ev, row);
    case _ => DecisionStaysFit(w, s, ev, row);
  }

  /** While one request is in flight, no other touches anything a flight relies on. */
  lemma OthersStayFit(w: World, s: State, ev: Event, row: Row, r: Request)
    requires Fresh(row) && Good(w, s, row) && r != ev.r && InFlight(PhaseOf(s, r))
    ensures var t := Step(w, s, ev); Fit(w, t, PhaseOf(s, r)) && !InFlight(PhaseOf(t, ev.r))
  {
    assert Fit(w, s, PhaseOf(s, ev.r)) && Fit(w, s, PhaseOf(s, r));
  }

  lemma StepKeepsGood(w: World, s: State, ev: Event, row: Row)
    requires Fresh(row) && Good(w, s, row)
    ensures Good(w, Step(w, s, ev), row)
  {
    var t := Step(w, s, ev);
    MoverStaysFit(w, s, ev, row);
    forall r ensures Fit(w, t, PhaseOf(t, r)) {
      if r != ev.r && InFlight(PhaseOf(s, r)) { OthersStayFit(w, s, ev, row, r); }
    }
    forall q, r | InFlight(PhaseOf(t, q)) && InFlight(PhaseOf(t, r)) ensures q == r {
      if q != r && q != ev.r { OthersStayFit(w, s, ev, row, q); }
      if q != r && r != ev.r { OthersStayFit(w, s, ev, row, r); }
    }
  }

  lemma {:induction false} PlayKeepsGood(w: World, s: State, events: seq<Event>, row: Row)
    requires Fresh(row) && Good(w, s, row)
    ensures Good(w, Play(w, s, events), row)
    decreases events
  {
    if events != [] {
      StepKeepsGood(w, s, events[0], row);
      PlayKeepsGood(w, Step(w, s, events[0]), events[1..], row);
    }
  }

  lemma RunIsGood(w: World, row: Row, events: seq<Event>)
    requires Fresh(row)
    ensures Good(w, Run(w, row, events), row)
  {
    PlayKeepsGood(w, Start(row), events, row);
  }

  // ----- what every interleaving keeps ------------------------------------------------

  /** At most one replay is in flight, and throughout it the row says approved, by that request. */
  lemma OneFlightWhileApproved(w: World, row: Row, events: seq<Event>, q: Request, r: Request)
    requires Fresh(row)
    requires InFlight(PhaseOf(Run(w, row, events), q)) && InFlight(PhaseOf(Run(w, row, events), r))
    ensures q == r
    ensures var s := Run(w, row, events); s.row.status == Approved && s.row.decision == Some(PhaseOf(s, r).decision)
  {
    RunIsGood(w, row, events);
    assert Fit(w, Run(w, row, events), PhaseOf(Run(w, row, events), r));
  }

  /** What was recorded to be replayed never changes, and a pending row names no decision. */
  lemma PayloadAndMetadata(w: World, row: Row, events: seq<Event>)
    requires Fresh(row)
    ensures var s := Run(w, row, events);
      s.row.payload == row.payload && s.row.prepared && (s.row.status == Pending ==> s.row.decision == None)
  {
    RunIsGood(w, row, events);
  }

  /** A row that says executed has had its action take effect; and exactly once, crashes and lost
      records included, as long as tool errors are clean or a raising ledger write is a lost one. */
  lemma ExecutedMeansOnce(w: World, row: Row, events: seq<Event>)
    requires Fresh(row)
    ensures Run(w, row, events).row.status == Executed ==> Run(w, row, events).effects >= 1
    ensures Once(w) ==> Run(w, row, events).effects <= 1
  {
    RunIsGood(w, row, events);
  }

  predicate Crashless(events: seq<Event>) {
    forall i | 0 <= i < |events| :: !events[i].Crash?
  }

  /** Somebody is in flight. */
  ghost predicate Airborne(s: State) {
    exists r :: InFlight(PhaseOf(s, r))
  }

  lemma StepKeepsAirborne(w: World, s: State, ev: Event, row: Row)
    requires Fresh(row) && Good(w, s, row) && !ev.Crash?
    requires s.row.status == Approved ==> Airborne(s)
    ensures var t := Step(w, s, ev); t.row.status == Approved ==> Airborne(t)
  {
    var t := Step(w, s, ev);
    assert Fit(w, s, PhaseOf(s, ev.r));
    if t.row.status == Approved {
      if s.row.status == Approved {
        var r :| InFlight(PhaseOf(s, r));
        assert InFlight(PhaseOf(t, r));
      } else {
        assert InFlight(PhaseOf(t, ev.r));
      }
    }
  }

  lemma {:induction false} PlayKeepsAirborne(w: World, s: State, events: seq<Event>, row: Row)
    requires Fresh(row) && Good(w, s, row) && Crashless(events)
    requires s.row.status == Approved ==> Airborne(s)
    ensures var t := Play(w, s, events); t.row.status == Approved ==> Airborne(t)
    decreases events
  {
    if events != [] {
      StepKeepsGood(w, s, events[0], row);
      StepKeepsAirborne(w, s, events[0], row);
      PlayKeepsAirborne(w, Step(w, s, events[0]), events[1..], row);
    }
  }

  /** As long as no request dies, the row says approved exactly while a replay is in flight: no
      action is ever left parked there. */
  lemma ApprovedExactlyInFlight(w: World, row: Row, events: seq<Event>)
    requires Fresh(row) && Crashless(events)
    ensures Run(w, row, events).row.status == Approved <==> Airborne(Run(w, row, events))
  {
    RunIsGood(w, row, events);
    PlayKeepsAirborne(w, Start(row), events, row);
    var s := Run(w, row, events);
    if r :| InFlight(PhaseOf(s, r)) { assert Fit(w, s, PhaseOf(s, r)); }
  }

  /** A row that is rejected, executed, failed or expired keeps its status and its decision for good. */
  lemma {:induction false} DecisionIsFinal(w: World, s: State, more: seq<Event>, row: Row)
    requires Fresh(row) && Good(w, s, row) && s.row.status != Pending && s.row.status != Approved
    ensures var t := Play(w, s, more); t.row.status == s.row.status && t.row.decision == s.row.decision
    decreases more
  {
    if more != [] {
      StepKeepsGood(w, s, more[0], row);
      StepKeepsDecision(w, s, more[0], row);
      DecisionIsFinal(w, Step(w, s, more[0]), more[1..], row);
    }
  }

  lemma StepKeepsDecision(w: World, s: State, ev: Event, row: Row)
    requires Fresh(row) && Good(w, s, row) && s.row.status != Pending && s.row.status != Approved
    ensures var t := Step(w, s, ev); t.row.status == s.row.status && t.row.decision == s.row.decision
  {
    assert Fit(w, s, PhaseOf(s, ev.r));
  }

  // ----- trying again ---------------------------------------------------------------

  /** Nobody who may still record success holds the reservation. */
  ghost predicate Orphaned(s: State) {
    s.ledger == Some(Ledger.InFlight) && s.row.status != Executed && forall r :: !Recording(PhaseOf(s, r))
  }

  predicate Recording(p: Phase) {
    p.Reserved? || p.Answered? || (p.Landed? && Success(p.outcome))
  }

  lemma StepKeepsOrphaned(w: World, s: State, ev: Event)
    requires Orphaned(s)
    ensures Orphaned(Step(w, s, ev)) && Step(w, s, ev).effects == s.effects
  {
    var t := Step(w, s, ev);
    assert !Recording(PhaseOf(s, ev.r));
    forall r ensures !Recording(PhaseOf(t, r)) {
      if r != ev.r { assert PhaseOf(t, r) == PhaseOf(s, r); }
    }
  }

  /** An attempt that raises inside its reservation, before or while recording, leaves it orphaned. */
  lemma RaisingOrphans(w: World, s: State, ev: Event, row: Row)
    requires Fresh(row) && Good(w, s, row)
    requires (ev.Raise? && PhaseOf(s, ev.r).Reserved?)
          || (ev == RecordRaises(ev.r, false) && PhaseOf(s, ev.r).Answered? && !(PhaseOf(s, ev.r).ok && w.records))
    ensures Orphaned(Step(w, s, ev))
  {
    var t := Step(w, s, ev);
    assert Fit(w, s, PhaseOf(s, ev.r));
    forall r ensures !Recording(PhaseOf(t, r)) {
      if r != ev.r { assert PhaseOf(t, r) == PhaseOf(s, r) && !InFlight(PhaseOf(s, r)); }
    }
  }

  /** From there the ledger answers every later attempt with a conflict. */
  lemma {:induction false} OrphansNeverExecute(w: World, s: State, more: seq<Event>)
    requires Orphaned(s)
    ensures Play(w, s, more).row.status != Executed && Play(w, s, more).effects == s.effects
    decreases more
  {
    if more != [] {
      StepKeepsOrphaned(w, s, more[0]);
      OrphansNeverExecute(w, Step(w, s, more[0]), more[1..]);
    }
  }

  /** A time at which the row has not expired. */
  function InTime(row: Row): int {
    if row.expiresAt.Some? then row.expiresAt.value else 0
  }

  lemma PlayTwo(w: World, s: State, a: Event, b: Event)
    ensures Play(w, s, [a, b]) == Step(w, Step(w, s, a), b)
  {
    var s1 := Step(w, s, a);
    assert [a, b][1..] == [b] && [b][1..] == [];
    assert Play(w, s1, [b]) == Play(w, Step(w, s1, b), []);
  }

  lemma PlayThree(w: World, s: State, a: Event, b: Event, c: Event)
    ensures Play(w, s, [a, b, c]) == Step(w, Step(w, Step(w, s, a), b), c)
  {
    assert [a, b, c] == [a, b] + [c] && [c][1..] == [];
    PlayAppend(w, s, [a, b], [c]);
    PlayTwo(w, s, a, b);
    var t := Play(w, s, [a, b]);
    assert Play(w, t, [c]) == Play(w, Step(w, t, c), []);
  }

  /** A confirmation up to the ledger, and what comes after a reservation. */
  function Confirmed(s: State, r: Request): seq<Event> {
    [Decide(r, Approve, Decision(InTime(s.row), "u", None), false), Reserve(r)]
  }

  function Completion(r: Request): seq<Event> {
    [Return(r, true, true), Record(r), WriteOutcome(r)]
  }

  lemma CompletionExecutes(w: World, s: State, r: Request)
    requires PhaseOf(s, r).Reserved?
    ensures Play(w, s, Completion(r)).row == s.row.(status := Executed) && Play(w, s, Completion(r)).effects == s.effects + 1
  {
    PlayThree(w, s, Return(r, true, true), Record(r), WriteOutcome(r));
  }

  /** An attempt that meets an earlier one: executed if that has succeeded, and pending again,
      undecided, if it is still in flight. Neither calls the tool. */
  lemma AttemptMeetsAnother(w: World, s: State, r: Request)
    requires PhaseOf(s, r).Flying?
    ensures var t := Play(w, s, [Reserve(r), WriteOutcome(r)]);
      && (s.ledger == Some(Ledger.Completed) ==> t.row == s.row.(status := Executed))
      && (s.ledger == Some(Ledger.InFlight) ==>
            t.row.status == Pending && t.row.decision == None && t.row.error.Some?)
      && (s.ledger.Some? && s.ledger.value != Ledger.Failed ==> t.ledger == s.ledger && t.effects == s.effects)
  {
    PlayTwo(w, s, Reserve(r), WriteOutcome(r));
  }

  /** An attempt that is refused before it reaches the ledger fails for good; one that could not get
      that far is pending again. */
  lemma AttemptEndsEarly(w: World, s: State, r: Request, o: Outcome)
    requires PhaseOf(s, r).Flying? && EarlyOutcome(o)
    ensures var t := Play(w, s, [FailEarly(r, o), WriteOutcome(r)]);
      && t.ledger == s.ledger && t.effects == s.effects && t.row.error == Some(o.why)
      && (if o.Refused? then t.row.status == Failed && t.row.decision == s.row.decision
          else t.row.status == Pending && t.row.decision == None)
  {
    PlayTwo(w, s, FailEarly(r, o), WriteOutcome(r));
  }

  /** An attempt that the tool answers: executed or failed, the ledger saying the same; one that
      raises: pending again, the ledger still in flight. */
  lemma AttemptEnds(w: World, s: State, r: Request, ok: bool, happened: bool)
    requires PhaseOf(s, r).Reserved?
    ensures var t := Play(w, s, [Return(r, ok, happened), Record(r), WriteOutcome(r)]);
      && t.row.status == (if ok then Executed else Failed) && t.row.decision == s.row.decision
      && t.ledger == Some(if ok then Ledger.Completed else Ledger.Failed)
      && (ok ==> t.effects == s.effects + 1)
    ensures var t := Play(w, s, [Raise(r, happened), WriteOutcome(r)]);
      && t.row.status == Pending && t.row.decision == None && t.ledger == s.ledger
      && (w.clean || !happened ==> t.effects == s.effects)
  {
    PlayThree(w, s, Return(r, ok, happened), Record(r), WriteOutcome(r));
    PlayTwo(w, s, Raise(r, happened), WriteOutcome(r));
  }

  /** A pending row whose ledger entry is not in flight can be confirmed, and ends up executed. */
  lemma FreeLedgerExecutes(w: World, s: State, r: Request) returns (more: seq<Event>)
    requires s.row.status == Pending && s.row.prepared && !s.row.chat && PhaseOf(s, r) == Unborn
    requires s.ledger != Some(Ledger.InFlight)
    ensures Play(w, s, more).row.status == Executed
  {
    var d := Decision(InTime(s.row), "u", None);
    var first := Confirmed(s, r);
    PlayTwo(w, s, Decide(r, Approve, d, false), Reserve(r));
    var t := Play(w, s, first);
    if s.ledger == Some(Ledger.Completed) {
      more := first + [WriteOutcome(r), Crash(r)];
      PlayAppend(w, s, first, [WriteOutcome(r), Crash(r)]);
      PlayTwo(w, t, WriteOutcome(r), Crash(r));
    } else {
      more := first + Completion(r);
      assert s.ledger.None? || s.ledger.value.Failed?;
      assert PhaseOf(t, r).Reserved?;
      PlayAppend(w, s, first, Completion(r));
      CompletionExecutes(w, t, r);
    }
  }

  /** There is always a request that has not been made yet. */
  lemma {:induction false} UnbornExists(phases: map<Request, Phase>) returns (n: nat)
    ensures forall r | r in phases :: r.number < n
    decreases phases.Keys
  {
    if phases == map[] {
      n := 0;
    } else {
      var r :| r in phases;
      var m := UnbornExists(phases - {r});
      n := if r.number < m then m else r.number + 1;
      forall q | q in phases ensures q.number < n {
        if q != r { assert q in phases - {r}; }
      }
    }
  }

  /** The promise of every retryable outcome, that the row can be confirmed again and its action
      run, holds of a pending row exactly when the ledger's entry has not been left in flight. */
  lemma PendingCanExecuteIffLedgerFree(w: World, row: Row, events: seq<Event>)
    requires Fresh(row) && Run(w, row, events).row.status == Pending
    ensures (exists more :: Run(w, row, events + more).row.status == Executed)
      <==> Run(w, row, events).ledger != Some(Ledger.InFlight)
  {
    var s := Run(w, row, events);
    RunIsGood(w, row, events);
    if s.ledger == Some(Ledger.InFlight) {
      forall r ensures !Recording(PhaseOf(s, r)) { assert Fit(w, s, PhaseOf(s, r)); }
      forall more ensures Run(w, row, events + more).row.status != Executed {
        PlayAppend(w, Start(row), events, more);
        OrphansNeverExecute(w, s, more);
      }
    } else {
      var n := UnbornExists(s.phases);
      var more := FreeLedgerExecutes(w, s, Request(n));
      PlayAppend(w, Start(row), events, more);
    }
  }

  /** The row says approved, but nobody is left to run the action. */
  ghost predicate Stranded(s: State) {
    s.row.status == Approved && forall r :: !InFlight(PhaseOf(s, r))
  }

  /** A process that dies anywhere in a replay leaves the row like that. */
  lemma CrashStrands(w: World, s: State, r: Request, row: Row)
    requires Fresh(row) && Good(w, s, row) && InFlight(PhaseOf(s, r))
    ensures Stranded(Step(w, s, Crash(r)))
  {
    var t := Step(w, s, Crash(r));
    assert Fit(w, s, PhaseOf(s, r));
    forall q ensures !InFlight(PhaseOf(t, q)) {
      if q != r { assert PhaseOf(t, q) == PhaseOf(s, q); }
    }
  }

  lemma StepKeepsStranded(w: World, s: State, ev: Event)
    requires Stranded(s)
    ensures var t := Step(w, s, ev);
      Stranded(t) && t.row.decision == s.row.decision && t.effects == s.effects && t.ledger == s.ledger
  {
    var t := Step(w, s, ev);
    forall q ensures !InFlight(PhaseOf(t, q)) {
      if q != ev.r { assert PhaseOf(t, q) == PhaseOf(s, q); }
    }
  }

  /** And so it stays: every later confirmation is answered as if it had worked, and nothing runs. */
  lemma {:induction false} StrandedForEver(w: World, s: State, more: seq<Event>)
    requires Stranded(s)
    ensures var t := Play(w, s, more);
      Stranded(t) && t.row.decision == s.row.decision && t.effects == s.effects && t.ledger == s.ledger
    decreases more
  {
    if more != [] {
      StepKeepsStranded(w, s, more[0]);
      StrandedForEver(w, Step(w, s, more[0]), more[1..]);
    }
  }

  // ----- when the action takes effect once ------------------------------------------------

  ghost predicate AtMostOnce(w: World, row: Row) {
    forall events :: Run(w, row, events).effects <= 1
  }

  /** A call that acts and answers with an error, whose record is committed and raises: the row is
      pending again, and so is the ledger's. */
  function DirtyAttempt(s: State, r: Request): seq<Event> {
    Confirmed(s, r) + [Return(r, false, true), RecordRaises(r, true), WriteOutcome(r)]
  }

  lemma ConfirmationReserves(w: World, s: State, r: Request)
    requires s.row.status == Pending && s.row.prepared && !s.row.chat && PhaseOf(s, r) == Unborn
    requires s.ledger.None? || s.ledger.value.Failed?
    ensures var t := Play(w, s, Confirmed(s, r));
      && PhaseOf(t, r).Reserved? && t.ledger == Some(Ledger.InFlight) && t.effects == s.effects
      && t.row == s.row.(status := Approved, decision := t.row.decision)
      && forall q | q != r :: PhaseOf(t, q) == PhaseOf(s, q)
  {
    PlayTwo(w, s, Decide(r, Approve, Decision(InTime(s.row), "u", None), false), Reserve(r));
  }

  lemma MarkFailedRaises(w: World, s: State, r: Request)
    requires !w.clean && !w.certain && PhaseOf(s, r).Reserved?
    ensures var t := Play(w, s, [Return(r, false, true), RecordRaises(r, true), WriteOutcome(r)]);
      && t.row == s.row.(status := Pending, decision := None, error := t.row.error)
      && t.ledger == Some(Ledger.Failed) && t.effects == s.effects + 1
      && forall q | q != r :: PhaseOf(t, q) == PhaseOf(s, q)
  {
    PlayThree(w, s, Return(r, false, true), RecordRaises(r, true), WriteOutcome(r));
  }

  lemma DirtyAttemptActs(w: World, s: State, r: Request)
    requires !w.clean && !w.certain
    requires s.row.status == Pending && s.row.prepared && !s.row.chat && s.ledger == None && PhaseOf(s, r) == Unborn
    ensures var t := Play(w, s, DirtyAttempt(s, r));
      && t.row.status == Pending && t.row.prepared && !t.row.chat && t.ledger == Some(Ledger.Failed)
      && t.effects == s.effects + 1 && forall q | q != r :: PhaseOf(t, q) == PhaseOf(s, q)
  {
    ConfirmationReserves(w, s, r);
    PlayAppend(w, s, Confirmed(s, r), [Return(r, false, true), RecordRaises(r, true), WriteOutcome(r)]);
    MarkFailedRaises(w, Play(w, s, Confirmed(s, r)), r);
  }

  lemma DirtyAttemptsRepeat(w: World, row: Row) returns (events: seq<Event>)
    requires Fresh(row) && !w.clean && !w.certain
    ensures Run(w, row, events).effects == 2
  {
    var q, r := Request(1), Request(2);
    var first := DirtyAttempt(Start(row), q);
    DirtyAttemptActs(w, Start(row), q);
    var s := Run(w, row, first);
    var second := Confirmed(s, r);
    ConfirmationReserves(w, s, r);
    PlayAppend(w, Start(row), first, second);
    CompletionExecutes(w, Play(w, s, second), r);
    PlayAppend(w, Start(row), first + second, Completion(r));
    events := first + second + Completion(r);
  }

  /** Over all schedules the action takes effect at most once exactly when tool errors are clean, or
      a ledger write that raises is known not to have been committed. */
  lemma AtMostOnceIff(w: World, row: Row)
    requires Fresh(row)
    ensures AtMostOnce(w, row) <==> w.clean || w.certain
  {
    if w.clean || w.certain {
      forall events ensures Run(w, row, events).effects <= 1 { ExecutedMeansOnce(w, row, events); }
    } else {
      var events := DirtyAttemptsRepeat(w, row);
    }
  }

  // ----- when a refusal means that nothing happened -------------------------------------

  ghost predicate RefusalMeansNothingHappened(w: World, row: Row) {
    forall events :: Run(w, row, events).row.status in {Rejected, Failed} ==> Run(w, row, events).effects == 0
  }

  /** The tool acts, and the attempt raises: in the call itself, or when its success is recorded. */
  function LostAttempt(w: World, s: State, r: Request): seq<Event> {
    Confirmed(s, r) + if w.clean then [Return(r, true, true), RecordRaises(r, false), WriteOutcome(r)]
                      else [Raise(r, true), WriteOutcome(r), Crash(r)]
  }

  /** What such an attempt leaves behind: the effect, and a row that can be decided again. */
  predicate LostIn(s: State, t: State) {
    t.row.status == Pending && !t.row.chat && t.row.expiresAt == s.row.expiresAt && t.effects == s.effects + 1
  }

  lemma UnrecordedAttemptIsLost(w: World, s: State, r: Request)
    requires !w.records && PhaseOf(s, r).Reserved? && !s.row.chat
    ensures var t := Play(w, s, [Return(r, true, true), RecordRaises(r, false), WriteOutcome(r)]);
      LostIn(s, t) && forall q | q != r :: PhaseOf(t, q) == PhaseOf(s, q)
  {
    PlayThree(w, s, Return(r, true, true), RecordRaises(r, false), WriteOutcome(r));
  }

  lemma RaisingAttemptIsLost(w: World, s: State, r: Request)
    requires !w.clean && PhaseOf(s, r).Reserved? && !s.row.chat
    ensures var t := Play(w, s, [Raise(r, true), WriteOutcome(r), Crash(r)]);
      LostIn(s, t) && forall q | q != r :: PhaseOf(t, q) == PhaseOf(s, q)
  {
    PlayThree(w, s, Raise(r, true), WriteOutcome(r), Crash(r));
  }

  lemma LostAttemptActs(w: World, s: State, r: Request)
    requires !Kind(w)
    requires s.row.status == Pending && s.row.prepared && !s.row.chat && s.ledger == None && PhaseOf(s, r) == Unborn
    ensures var t := Play(w, s, LostAttempt(w, s, r));
      LostIn(s, t) && forall q | q != r :: PhaseOf(t, q) == PhaseOf(s, q)
  {
    ConfirmationReserves(w, s, r);
    var t := Play(w, s, Confirmed(s, r));
    if w.clean {
      UnrecordedAttemptIsLost(w, t, r);
      PlayAppend(w, s, Confirmed(s, r), [Return(r, true, true), RecordRaises(r, false), WriteOutcome(r)]);
    } else {
      RaisingAttemptIsLost(w, t, r);
      PlayAppend(w, s, Confirmed(s, r), [Raise(r, true), WriteOutcome(r), Crash(r)]);
    }
  }

  /** The row is pending again, and a reviewer rejects what has happened. */
  lemma RejectedAfterTheFact(w: World, row: Row) returns (events: seq<Event>)
    requires Fresh(row) && !Kind(w)
    ensures Run(w, row, events).row.status == Rejected && Run(w, row, events).effects == 1
  {
    var q, r := Request(1), Request(2);
    var first := LostAttempt(w, Start(row), q);
    LostAttemptActs(w, Start(row), q);
    var s := Run(w, row, first);
    var second := [Decide(r, Reject, Decision(InTime(row), "u", None), false), Crash(r)];
    PlayTwo(w, s, second[0], second[1]);
    PlayAppend(w, Start(row), first, second);
    events := first + second;
  }

  /** Rejected or failed means that the action never took effect exactly when a call that answers
      with an error or raises has had none, and the record of a successful one is never lost. */
  lemma RefusalMeansNothingHappenedIff(w: World, row: Row)
    requires Fresh(row)
    ensures RefusalMeansNothingHappened(w, row) <==> w.clean && w.records
  {
    if w.clean && w.records {
      forall events
        ensures Run(w, row, events).row.status in {Rejected, Failed} ==> Run(w, row, events).effects == 0
      {
        RunIsGood(w, row, events);
      }
    } else {
      var events := RejectedAfterTheFact(w, row);
    }
  }

  /** An edit checks the status without the lock, so it can change what a row displays after the
      row was approved and executed; it changes nothing else. */
  lemma LateEditLands(w: World, row: Row, title: string) returns (events: seq<Event>)
    requires Fresh(row)
    ensures Run(w, row, events).row == row.(
      status := Executed, decision := Run(w, row, events).row.decision,
      display := row.display.(title := title))
  {
    var q, r, e := Request(1), Request(2), Edit(Some(title), None, None);
    var s := Step(w, Start(row), ReadEdit(q, e));
    assert [ReadEdit(q, e)][1..] == [];
    assert Run(w, row, [ReadEdit(q, e)]) == Play(w, s, []);
    var confirmed := Confirmed(s, r);
    ConfirmationReserves(w, s, r);
    CompletionExecutes(w, Play(w, s, confirmed), r);
    CompletionSparesOthers(w, Play(w, s, confirmed), r, q);
    PlayAppend(w, s, confirmed, Completion(r));
    var t := Play(w, s, confirmed + Completion(r));
    PlayTwo(w, t, WriteEdit(q), Crash(q));
    PlayAppend(w, s, confirmed + Completion(r), [WriteEdit(q), Crash(q)]);
    PlayAppend(w, Start(row), [ReadEdit(q, e)], confirmed + Completion(r) + [WriteEdit(q), Crash(q)]);
    events := [ReadEdit(q, e)] + (confirmed + Completion(r) + [WriteEdit(q), Crash(q)]);
  }

  lemma CompletionSparesOthers(w: World, s: State, r: Request, q: Request)
    requires q != r
    ensures PhaseOf(Play(w, s, Completion(r)), q) == PhaseOf(s, q)
  {
    PlayThree(w, s, Return(r, true, true), Record(r), WriteOutcome(r));
  }
}
