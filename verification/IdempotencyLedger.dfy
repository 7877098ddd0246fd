/** The idempotency ledger: a write is reserved before its effect fires and recorded afterwards,
    in separate transactions, by workers that may crash or race anywhere in between. */
module IdempotencyLedger {
  import opened Orders

  datatype Workspace = Workspace(id: string)
  datatype LedgerId = LedgerId(ulid: string)
  datatype Payload = Payload(json: string)

  /** One logical write; the unique index is on this pair. */
  datatype Key = Key(workspace: Workspace, identity: string)

  datatype Status = InFlight | Completed | Failed
  datatype Row = Row(key: Key, status: Status, result: Option<Payload>)
  type Rows = map<LedgerId, Row>

  ghost predicate KeysUnique(rows: Rows) {
    forall i, j | i in rows && j in rows && rows[i].key == rows[j].key :: i == j
  }

  ghost predicate IsRowOf(rows: Rows, key: Key, id: LedgerId) {
    id in rows && rows[id].key == key
  }

  /** What a caller of `reserve` is told. A fresh reservation may come without a row. */
  datatype Outcome = AlreadyDone(result: Option<Payload>) | InFlightConflict | Proceed(id: Option<LedgerId>)

  /** What the wrapped tool answered: a result, or an error. */
  datatype Reply = Success(result: Option<Payload>) | Error(message: string)

  function Reserved(rows: Rows, key: Key, id: LedgerId): Rows {
    rows[id := Row(key, InFlight, None)]
  }

  function Reopened(rows: Rows, id: LedgerId): Rows
    requires id in rows
  {
    rows[id := rows[id].(status := InFlight, result := None)]
  }

  /** `record_success` after a result, `mark_failed` after an error; neither finds a row without id. */
  function Recorded(rows: Rows, id: Option<LedgerId>, reply: Reply): Rows {
    if id.None? || id.value !in rows then rows
    else match reply
      case Success(r) => rows[id.value := rows[id.value].(status := Completed, result := r)]
      case Error(_) => rows[id.value := rows[id.value].(status := Failed)]
  }

  /** What one uninterrupted execution through the wrapper does: `reply` is what the tool would
      answer if called, `id` what a new row would be called. */
  ghost predicate Executed(
      workspaces: set<Workspace>, before: Rows, isWrite: bool, key: Key, id: LedgerId, reply: Reply,
      called: bool, answer: Option<Reply>, after: Rows)
  {
    && (!isWrite ==> called && answer == Some(reply) && after == before)
    && (isWrite ==> (called <==> forall j | IsRowOf(before, key, j) :: before[j].status == Failed))
    && (isWrite && called ==>
          && answer == Some(reply)
          && (forall j | IsRowOf(before, key, j) :: after == Recorded(Reserved(before, key, j), Some(j), reply))
          && ((forall j :: !IsRowOf(before, key, j)) ==>
                after == if key.workspace in workspaces then Recorded(Reserved(before, key, id), Some(id), reply) else before))
    && (isWrite && !called ==>
          && after == before
          && forall j | IsRowOf(after, key, j) ::
               answer == if after[j].status == Completed then Some(Success(after[j].result)) else None)
  }

  /** What only reads is called every time, and leaves the ledger alone. */
  lemma ReadsBypass(
      workspaces: set<Workspace>, before: Rows, key: Key, id: LedgerId, reply: Reply,
      called: bool, answer: Option<Reply>, after: Rows)
    requires Executed(workspaces, before, false, key, id, reply, called, answer, after)
    ensures called && answer == Some(reply) && after == before
  {
  }

  /** The key's write is on record as done, with this result. */
  ghost predicate DoneWith(rows: Rows, key: Key, result: Option<Payload>) {
    exists id :: id in rows && rows[id] == Row(key, Completed, result)
  }

  /** A called write whose workspace exists is on record afterwards: as done, with just the result
      that the tool answered, or as failed. */
  lemma ReplyIsRecorded(
      workspaces: set<Workspace>, before: Rows, key: Key, id: LedgerId, reply: Reply, answer: Option<Reply>, after: Rows)
    requires KeysUnique(before) && id !in before && key.workspace in workspaces
    requires Executed(workspaces, before, true, key, id, reply, true, answer, after)
    ensures reply.Success? ==> DoneWith(after, key, reply.result)
    ensures reply.Error? ==> exists j :: IsRowOf(after, key, j) && after[j].status == Failed
  {
    var own := if j :| IsRowOf(before, key, j) then j else id;
    assert own in after && after[own].key == key;
  }

  /** From then on every execution of that write, whatever was executed in between, answers that
      result without calling the tool. */
  lemma RetryAnswersTheResult(
      workspaces: set<Workspace>, rows: Rows, key: Key, result: Option<Payload>, id: LedgerId, reply: Reply,
      called: bool, answer: Option<Reply>, after: Rows)
    requires KeysUnique(rows) && id !in rows && DoneWith(rows, key, result)
    requires Executed(workspaces, rows, true, key, id, reply, called, answer, after)
    ensures !called && answer == Some(Success(result)) && after == rows
  {
    var j :| j in rows && rows[j] == Row(key, Completed, result);
    assert IsRowOf(rows, key, j);
  }

  lemma DoneStaysDone(
      workspaces: set<Workspace>, rows: Rows, key: Key, result: Option<Payload>, isWrite: bool, other: Key, id: LedgerId,
      reply: Reply, called: bool, answer: Option<Reply>, after: Rows)
    requires KeysUnique(rows) && id !in rows && DoneWith(rows, key, result)
    requires Executed(workspaces, rows, isWrite, other, id, reply, called, answer, after)
    ensures DoneWith(after, key, result)
  {
    var j :| j in rows && rows[j] == Row(key, Completed, result);
    assert IsRowOf(rows, key, j);
    if isWrite && called {
      if k :| IsRowOf(rows, other, k) { assert k != j; }
    }
    assert after[j] == rows[j];
  }

  /** A failed write may be tried again: the next execution calls the tool. */
  lemma FailureIsRetried(
      workspaces: set<Workspace>, rows: Rows, key: Key, j: LedgerId, id: LedgerId, reply: Reply,
      called: bool, answer: Option<Reply>, after: Rows)
    requires KeysUnique(rows) && j in rows && rows[j].key == key && rows[j].status == Failed
    requires Executed(workspaces, rows, true, key, id, reply, called, answer, after)
    ensures called && answer == Some(reply)
  {
  }

  lemma ReservingKeepsKeysUnique(rows: Rows, key: Key, id: LedgerId)
    requires KeysUnique(rows) && id !in rows && forall j :: !IsRowOf(rows, key, j)
    ensures KeysUnique(Reserved(rows, key, id))
  {
    var after := Reserved(rows, key, id);
    forall i, j | i in after && j in after && after[i].key == after[j].key ensures i == j {
      if i != j {
        var other := if i == id then j else i;
        assert IsRowOf(rows, after[other].key, other);
      }
    }
  }

  class Ledger {
    const workspaces: set<Workspace>
    var rows: Rows

    constructor (workspaces: set<Workspace>)
      ensures this.workspaces == workspaces && rows == map[]
    {
      this.workspaces := workspaces;
      this.rows := map[];
    }

    method FindRow(key: Key) returns (found: Option<LedgerId>)
      ensures found.Some? ==> IsRowOf(rows, key, found.value)
      ensures found.None? ==> forall id :: !IsRowOf(rows, key, id)
    {
      var left := rows.Keys;
      while left != {}
        invariant left <= rows.Keys
        invariant forall id | IsRowOf(rows, key, id) :: id in left
      {
        var id :| id in left;
        if rows[id].key == key { return Some(id); }
        left := left - {id};
      }
      found := None;
    }

    /** The insert, which the unique index or the workspace foreign key may refuse. */
    method TryInsert(key: Key, id: LedgerId) returns (inserted: bool)
      requires id !in rows
      modifies this
      ensures inserted <==> key.workspace in workspaces && forall j :: !IsRowOf(old(rows), key, j)
      ensures rows == if inserted then Reserved(old(rows), key, id) else old(rows)
    {
      var found := FindRow(key);
      inserted := found.None? && key.workspace in workspaces;
      if inserted { rows := Reserved(rows, key, id); }
    }

    /** `reserve`, run without interference. */
    method Reserve(key: Key, id: LedgerId) returns (outcome: Outcome)
      requires KeysUnique(rows) && id !in rows
      modifies this
      ensures KeysUnique(rows)
      ensures (forall j :: !IsRowOf(old(rows), key, j)) ==>
        if key.workspace in workspaces then outcome == Proceed(Some(id)) && rows == Reserved(old(rows), key, id)
        else outcome == Proceed(None) && rows == old(rows)
      ensures forall j | IsRowOf(old(rows), key, j) ::
        match old(rows)[j].status
        case Completed => outcome == AlreadyDone(old(rows)[j].result) && rows == old(rows)
        case InFlight => outcome == InFlightConflict && rows == old(rows)
        case Failed => outcome == Proceed(Some(j)) && rows == Reopened(old(rows), j)
    {
      var inserted := TryInsert(key, id);
      if inserted {
        ReservingKeepsKeysUnique(old(rows), key, id);
        return Proceed(Some(id));
      }
      var found := FindRow(key);
      match found
      case None => outcome := Proceed(None);
      case Some(j) =>
        match rows[j].status
        case Completed => outcome := AlreadyDone(rows[j].result);
        case InFlight => outcome := InFlightConflict;
        case Failed =>
          rows := Reopened(rows, j);
          outcome := Proceed(Some(j));
    }

    method RecordSuccess(id: Option<LedgerId>, result: Option<Payload>)
      modifies this
      ensures rows == Recorded(old(rows), id, Success(result))
    {
      if id.None? || id.value !in rows { return; }
      rows := rows[id.value := rows[id.value].(status := Completed, result := result)];
    }

    method MarkFailed(id: Option<LedgerId>)
      modifies this
      ensures forall message :: rows == Recorded(old(rows), id, Error(message))
    {
      if id.None? || id.value !in rows { return; }
      rows := rows[id.value := rows[id.value].(status := Failed)];
    }

    /** One write through the wrapper, `reply` being what the tool would answer if called. */
    method Execute(isWrite: bool, key: Key, id: LedgerId, reply: Reply) returns (called: bool, answer: Option<Reply>)
      requires KeysUnique(rows) && id !in rows
      modifies this
      ensures KeysUnique(rows)
      ensures Executed(workspaces, old(rows), isWrite, key, id, reply, called, answer, rows)
    {
      if !isWrite { return true, Some(reply); }
      ghost var before := rows;
      var outcome := Reserve(key, id);
      match outcome
      case AlreadyDone(result) => called, answer := false, Some(Success(result));
      case InFlightConflict => called, answer := false, None;
      case Proceed(own) =>
        assert own.Some? ==> rows == Reserved(before, key, own.value);
        called, answer := true, Some(reply);
        match reply
        case Success(result) => RecordSuccess(own, result);
        case Error(_) => MarkFailed(own);
    }
  }
}
