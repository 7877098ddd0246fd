/** One approval row and the handlers that decide, edit and settle it. */
module Approvals {
  import opened Orders

  datatype Status = Pending | Approved | Rejected | Executed | Failed | Expired
  datatype Intent = Approve | Reject

  /** Who decided, when, and why. */
  datatype Decision = Decision(at: int, user: string, reason: Option<string>)

  /** What an edit may change. */
  datatype Display = Display(title: string, summary: string, risk: string)
  datatype Edit = Edit(title: Option<string>, summary: Option<string>, risk: Option<string>)

  /** The recorded tool call a prepared row replays. */
  datatype Payload = Payload(tool: string, input: string)

  datatype Row = Row(
    status: Status,
    decision: Option<Decision>,
    display: Display,
    chat: bool,
    prepared: bool,
    expiresAt: Option<int>,
    payload: Payload,
    error: Option<string>)

  /** How a decision request is answered; `Replay` goes on to replay the prepared action. */
  datatype Answer = Ok | Replay | NotFound | Gone | WrongRoute | AlreadyDecided | NotEditable | TryAgain

  /** The statuses that already satisfy what the request asks for. */
  predicate Satisfies(status: Status, intent: Intent) {
    match intent
    case Approve => status == Approved || status == Executed
    case Reject => status == Rejected
  }

  predicate HasExpired(row: Row, now: int) {
    row.status == Pending && row.expiresAt.Some? && row.expiresAt.value < now
  }

  function Applied(d: Display, e: Edit): Display {
    Display(
      if e.title.Some? then e.title.value else d.title,
      if e.summary.Some? then e.summary.value else d.summary,
      if e.risk.Some? then e.risk.value else d.risk)
  }

  /** What a replay reported. */
  datatype Outcome =
    | Ran
    | AlreadyRan
    | Refused(why: string)
    | ToolFailed(why: string)
    | Transient(why: string)
    | Raised(why: string)

  /** The row a decision request leaves behind. `expirySticks` says whether the status flushed
      just before the 410 survives the session's teardown. */
  function DecidedRow(row: Row, intent: Intent, d: Decision, expirySticks: bool): Row {
    if HasExpired(row, d.at) then (if expirySticks then row.(status := Expired) else row)
    else if row.status != Pending || row.chat then row
    else row.(status := if intent == Approve then Approved else Rejected, decision := Some(d))
  }

  function DecisionAnswer(row: Row, intent: Intent, now: int): Answer {
    if HasExpired(row, now) then Gone
    else if row.status != Pending && !Satisfies(row.status, intent) then AlreadyDecided
    else if row.chat then WrongRoute
    else if row.status == Pending && intent == Approve && row.prepared then Replay
    else Ok
  }

  /** The row after a replay's outcome is written. */
  function SettledRow(row: Row, outcome: Outcome): Row {
    match outcome
    case Ran => row.(status := Executed)
    case AlreadyRan => row.(status := Executed)
    case Refused(why) => row.(status := Failed, error := Some(why))
    case ToolFailed(why) => row.(status := Failed, error := Some(why))
    case Transient(why) => row.(status := Pending, decision := None, error := Some(why))
    case Raised(why) => row.(status := Pending, decision := None, error := Some(why))
  }

  class Approval {
    var status: Status
    var decidedAt: Option<int>
    var approvedBy: Option<string>
    var decisionReason: Option<string>
    var title: string
    var summary: string
    var riskLevel: string
    var error: Option<string>
    const chat: bool
    const prepared: bool
    const expiresAt: Option<int>
    const payload: Payload

    constructor (display: Display, chat: bool, prepared: bool, expiresAt: Option<int>, payload: Payload)
      ensures Coherent()
      ensures View() == Row(Pending, None, display, chat, prepared, expiresAt, payload, None)
    {
      status, decidedAt, approvedBy, decisionReason, error := Pending, None, None, None, None;
      title, summary, riskLevel := display.title, display.summary, display.risk;
      this.chat, this.prepared, this.expiresAt, this.payload := chat, prepared, expiresAt, payload;
    }

    /** The decision metadata is there as a whole or not at all. */
    ghost predicate Coherent()
      reads this
    {
      decidedAt.Some? == approvedBy.Some? && (decidedAt.None? ==> decisionReason.None?)
    }

    ghost function View(): Row
      reads this
      requires Coherent()
    {
      Row(status, if decidedAt.Some? then Some(Decision(decidedAt.value, approvedBy.value, decisionReason)) else None,
          Display(title, summary, riskLevel), chat, prepared, expiresAt, payload, error)
    }

    /** The row lock, the expiry check, and the check whether the decision still stands open. */
    method Load(intent: Intent, now: int, expirySticks: bool) returns (refused: Option<Answer>)
      requires Coherent()
      modifies this`status
      ensures Coherent()
      ensures refused == if HasExpired(old(View()), now) then Some(Gone)
                         else if old(status) != Pending && !Satisfies(old(status), intent) then Some(AlreadyDecided)
                         else None
      ensures View() == if HasExpired(old(View()), now) && expirySticks then old(View()).(status := Expired) else old(View())
    {
      if status == Pending && expiresAt.Some? && expiresAt.value < now {
        if expirySticks { status := Expired; }
        return Some(Gone);
      }
      if status != Pending && !Satisfies(status, intent) { return Some(AlreadyDecided); }
      refused := None;
    }

    method ApproveAction(now: int, user: string, reason: Option<string>, expirySticks: bool) returns (answer: Answer)
      requires Coherent()
      modifies this
      ensures Coherent()
      ensures old(status) == Pending && !chat && !(expiresAt.Some? && expiresAt.value < now) ==>
        status == Approved && answer == if prepared then Replay else Ok
      ensures View() == DecidedRow(old(View()), Approve, Decision(now, user, reason), expirySticks)
      ensures answer == DecisionAnswer(old(View()), Approve, now)
    {
      var refused := Load(Approve, now, expirySticks);
      if refused.Some? { return refused.value; }
      if chat { return WrongRoute; }
      if status == Approved || status == Executed { return Ok; }
      status := Approved;
      decidedAt, decisionReason, approvedBy := Some(now), reason, Some(user);
      answer := if prepared then Replay else Ok;
    }

    method RejectAction(now: int, user: string, reason: Option<string>, expirySticks: bool) returns (answer: Answer)
      requires Coherent()
      modifies this
      ensures Coherent()
      ensures old(status) == Pending && !chat && !(expiresAt.Some? && expiresAt.value < now) ==>
        status == Rejected && answer == Ok
      ensures View() == DecidedRow(old(View()), Reject, Decision(now, user, reason), expirySticks)
      ensures answer == DecisionAnswer(old(View()), Reject, now)
    {
      var refused := Load(Reject, now, expirySticks);
      if refused.Some? { return refused.value; }
      if chat { return WrongRoute; }
      if status == Rejected { return Ok; }
      status := Rejected;
      decidedAt, decisionReason, approvedBy := Some(now), reason, Some(user);
      answer := Ok;
    }

    /** The write half of an edit; its check of the status came before, without the lock. */
    method WriteEdit(e: Edit)
      requires Coherent()
      modifies this`title, this`summary, this`riskLevel
      ensures Coherent() && View() == old(View()).(display := Applied(old(View()).display, e))
      ensures title == (if e.title.Some? then e.title.value else old(title))
      ensures summary == (if e.summary.Some? then e.summary.value else old(summary))
      ensures riskLevel == (if e.risk.Some? then e.risk.value else old(riskLevel))
    {
      if e.title.Some? { title := e.title.value; }
      if e.summary.Some? { summary := e.summary.value; }
      if e.risk.Some? { riskLevel := e.risk.value; }
    }

    /** The tail of `run_prepared_action`. */
    method RecordOutcome(outcome: Outcome) returns (answer: Answer)
      requires Coherent()
      modifies this
      ensures Coherent() && View() == SettledRow(old(View()), outcome)
      ensures answer == TryAgain <==> status == Pending
      ensures answer == TryAgain || answer == Ok
    {
      if outcome.Raised? || outcome.Transient? || outcome.Refused? || outcome.ToolFailed? { error := Some(outcome.why); }
      if outcome.Raised? || outcome.Transient? {
        status := Pending;
        decidedAt, approvedBy, decisionReason := None, None, None;
        return TryAgain;
      }
      status := if outcome.Ran? || outcome.AlreadyRan? then Executed else Failed;
      answer := Ok;
    }
  }

  /** A decision on a pending row of an action: too late exactly when the row's expiry lies before the
      time of the decision, and otherwise the row becomes what was decided, by this decision, and
      nothing else about it changes. */
  lemma PendingRowIsDecidedInTime(row: Row, intent: Intent, d: Decision, sticks: bool)
    requires row.status == Pending && !row.chat
    ensures var late := row.expiresAt.Some? && row.expiresAt.value < d.at;
      && (DecisionAnswer(row, intent, d.at) == Gone <==> late)
      && (late ==> DecidedRow(row, intent, d, sticks) == if sticks then row.(status := Expired) else row)
      && (!late && intent == Approve ==>
            DecidedRow(row, intent, d, sticks) == row.(status := Approved, decision := Some(d)))
      && (!late && intent == Reject ==>
            DecidedRow(row, intent, d, sticks) == row.(status := Rejected, decision := Some(d)))
      && (DecisionAnswer(row, intent, d.at) == Replay <==> !late && intent == Approve && row.prepared)
      && (DecisionAnswer(row, intent, d.at) == Ok <==> !late && !(intent == Approve && row.prepared))
  {
  }

  /** A row that is no longer pending stays as it is: asking for what it already is gets an
      agreeing answer, an executed row counting as approved, and anything else is a conflict. */
  lemma SettledRowsStay(row: Row, intent: Intent, d: Decision, sticks: bool)
    requires row.status != Pending
    ensures DecidedRow(row, intent, d, sticks) == row
    ensures DecisionAnswer(row, intent, d.at) != AlreadyDecided <==>
      if intent == Approve then row.status == Approved || row.status == Executed else row.status == Rejected
    ensures DecisionAnswer(row, intent, d.at) == if Satisfies(row.status, intent) then
                                                    (if row.chat then WrongRoute else Ok) else AlreadyDecided
  {
  }

  /** What a replay's outcome makes of the row: done, refused for good, or open again for another
      decision. */
  lemma OutcomeSettlesTheRow(row: Row, outcome: Outcome)
    ensures SettledRow(row, outcome).status == Executed <==> outcome == Ran || outcome == AlreadyRan
    ensures SettledRow(row, outcome).status == Pending <==> outcome.Transient? || outcome.Raised?
    ensures SettledRow(row, outcome).status == Failed <==> outcome.Refused? || outcome.ToolFailed?
    ensures SettledRow(row, outcome).decision == if outcome.Transient? || outcome.Raised? then None else row.decision
    ensures SettledRow(row, outcome).error ==
      if outcome == Ran || outcome == AlreadyRan then row.error else Some(outcome.why)
    ensures SettledRow(row, outcome).(status := row.status, decision := row.decision, error := row.error) == row
  {
  }

  /** A chat approval is never decided here, whatever is asked; but expiry is noticed first. */
  lemma ChatRowsAreNotDecided(row: Row, intent: Intent, d: Decision, sticks: bool)
    requires row.chat
    ensures var after := DecidedRow(row, intent, d, sticks);
      after == row || (row.status == Pending && after == row.(status := Expired))
    ensures DecisionAnswer(row, intent, d.at) == Gone
      <==> row.status == Pending && row.expiresAt.Some? && row.expiresAt.value < d.at
    ensures DecisionAnswer(row, intent, d.at) !in {Ok, Replay}
  {
  }

  /** Asking twice is asking once: the second request changes nothing, and runs nothing. */
  lemma SecondDecisionIsIdle(row: Row, first: Intent, second: Intent, d: Decision, e: Decision, sticks: bool)
    requires DecisionAnswer(row, first, d.at) in {Ok, Replay}
    ensures var once := DecidedRow(row, first, d, sticks);
      && DecidedRow(once, second, e, sticks) == once
      && DecisionAnswer(once, second, e.at) == if Satisfies(once.status, second) then Ok else AlreadyDecided
  {
  }
}
