/** Many workers sharing one ledger: every schedule of their transactions, replies and crashes. */
module LedgerProtocol {
  import opened Orders
  import opened IdempotencyLedger

  datatype Worker = Worker(number: int)

  /** Where a worker stands between two of its transactions. */
  datatype Phase =
    | Idle
    | Refused(key: Key)                                        // its insert failed
    | SawFailed(key: Key, id: LedgerId)                        // about to reopen a failed row
    | Firing(key: Key, reserved: Option<LedgerId>)             // free to call the tool
    | Replied(key: Key, reserved: Option<LedgerId>, reply: Reply)  // about to record

  datatype State = State(rows: Rows, phases: map<Worker, Phase>, fired: multiset<Key>)

  /** What the ledger's promise rests on. */
  datatype World = World(
    workspaces: set<Workspace>,  // those with a row of their own
    refusesInFlight: bool,       // callers treat an in-flight row as a conflict
    errorsAreClean: bool)        // an error answer means that nothing happened outside

  /** One step of one worker. `happened` says whether a call that ended badly took effect. */
  datatype Event =
    | Insert(w: Worker, key: Key, id: LedgerId)
    | LookUp(w: Worker)
    | Reopen(w: Worker)
    | Call(w: Worker, reply: Reply, happened: bool)
    | CallRaises(w: Worker, happened: bool)
    | Record(w: Worker)
    | Crash(w: Worker)

  function PhaseOf(s: State, w: Worker): Phase {
    if w in s.phases then s.phases[w] else Idle
  }

  ghost predicate Taken(rows: Rows, key: Key) {
    exists id :: IsRowOf(rows, key, id)
  }

  ghost function RowOf(rows: Rows, key: Key): (id: LedgerId)
    requires Taken(rows, key)
    ensures IsRowOf(rows, key, id)
  {
    var id :| IsRowOf(rows, key, id);
    id
  }

  /** After the insert failed: what the existing row, if any, means for this worker. */
  ghost function Resolved(world: World, rows: Rows, key: Key): Phase {
    if !Taken(rows, key) then Firing(key, None)
    else
      var id := RowOf(rows, key);
      match rows[id].status
      case Completed => Idle
      case Failed => SawFailed(key, id)
      case InFlight => if world.refusesInFlight then Idle else Firing(key, Some(id))
  }

  /** Whether a call with this reply changed the outside world. */
  predicate TookEffect(world: World, reply: Reply, happened: bool) {
    reply.Success? || (happened && !world.errorsAreClean)
  }

  function Fire(fired: multiset<Key>, key: Key, happened: bool): multiset<Key> {
    if happened then fired + multiset{key} else fired
  }

  /** What one event makes of the rows, of its worker's phase and of the outside world. */
  datatype Move = Move(rows: Rows, phase: Phase, fired: multiset<Key>)

  /** A worker that is not where the event needs it to be does nothing. The reopening is a
      compare-and-set: whoever loses it has met an in-flight row. */
  ghost function MoveOf(world: World, s: State, e: Event): Move {
    var p := PhaseOf(s, e.w);
    match e
    case Insert(_, key, id) =>
      if !p.Idle? || id in s.rows then Move(s.rows, p, s.fired)
      else if Taken(s.rows, key) || key.workspace !in world.workspaces then Move(s.rows, Refused(key), s.fired)
      else Move(Reserved(s.rows, key, id), Firing(key, Some(id)), s.fired)
    case LookUp(_) => Move(s.rows, if p.Refused? then Resolved(world, s.rows, p.key) else p, s.fired)
    case Reopen(_) =>
      if !p.SawFailed? then Move(s.rows, p, s.fired)
      else if p.id in s.rows && s.rows[p.id].status == Failed then
        Move(Reopened(s.rows, p.id), Firing(p.key, Some(p.id)), s.fired)
      else Move(s.rows, if world.refusesInFlight then Idle else Firing(p.key, Some(p.id)), s.fired)
    case Call(_, reply, happened) =>
      if !p.Firing? then Move(s.rows, p, s.fired)
      else Move(s.rows, Replied(p.key, p.reserved, reply), Fire(s.fired, p.key, TookEffect(world, reply, happened)))
    case CallRaises(_, happened) =>
      if !p.Firing? then Move(s.rows, p, s.fired) else Move(s.rows, Idle, Fire(s.fired, p.key, happened))
    case Record(_) =>
      if !p.Replied? then Move(s.rows, p, s.fired)
      else Move(Recorded(s.rows, p.reserved, p.reply), Idle, s.fired)
    case Crash(_) => Move(s.rows, Idle, s.fired)
  }

  ghost function Step(world: World, s: State, e: Event): State {
    var m := MoveOf(world, s, e);
    State(m.rows, s.phases[e.w := m.phase], m.fired)
  }

  const START := State(map[], map[], multiset{})

  ghost function Play(world: World, s: State, events: seq<Event>): State
    decreases events
  {
    if events == [] then s else Play(world, Step(world, s, events[0]), events[1..])
  }

  /** The state after a schedule, whatever it is. */
  ghost function Run(world: World, events: seq<Event>): State {
    Play(world, START, events)
  }

  lemma {:induction false} PlayAppend(world: World, s: State, a: seq<Event>, b: seq<Event>)
    ensures Play(world, s, a + b) == Play(world, Play(world, s, a), b)
    decreases a
  {
    if a == [] {
      assert a + b == b;
    } else {
      assert (a + b)[0] == a[0] && (a + b)[1..] == a[1..] + b;
      PlayAppend(world, Step(world, s, a[0]), a[1..], b);
    }
  }

  // ----- the invariant --------------------------------------------------------

  /** The world is kind to this key. */
  predicate Safe(world: World, key: Key) {
    key.workspace in world.workspaces && world.refusesInFlight && world.errorsAreClean
  }

  /** The worker holds a reservation of the key that it has not recorded yet. */
  predicate Owns(p: Phase, key: Key) {
    (p.Firing? || p.Replied?) && p.key == key
  }

  /** What a worker remembers about rows is true. */
  ghost predicate Informed(s: State, p: Phase) {
    match p
    case Idle => true
    case Refused(_) => true
    case SawFailed(key, id) => IsRowOf(s.rows, key, id)
    case Firing(key, id) => id.Some? ==> IsRowOf(s.rows, key, id.value)
    case Replied(key, id, _) => id.Some? ==> IsRowOf(s.rows, key, id.value)
  }

  ghost predicate Consistent(s: State) {
    KeysUnique(s.rows) && forall w :: Informed(s, PhaseOf(s, w))
  }

  /** How often the key must have fired, for a worker that owns it. */
  function FiredBy(p: Phase): nat {
    if p.Replied? && p.reply.Success? then 1 else 0
  }

  ghost predicate Fair(s: State, key: Key, p: Phase) {
    && (p == Refused(key) ==> Taken(s.rows, key))
    && (Owns(p, key) ==> p.reserved.Some? && p.reserved.value in s.rows
                         && s.rows[p.reserved.value].status == InFlight && s.fired[key] == FiredBy(p))
  }

  ghost predicate Tallied(s: State, key: Key) {
    && (!Taken(s.rows, key) ==> s.fired[key] == 0)
    && forall id | IsRowOf(s.rows, key, id) ::
         match s.rows[id].status
         case Completed => s.fired[key] == 1
         case Failed => s.fired[key] == 0
         case InFlight => s.fired[key] <= 1
  }

  ghost predicate Good(s: State, key: Key) {
    && Consistent(s) && Tallied(s, key)
    && (forall w :: Fair(s, key, PhaseOf(s, w)))
    && (forall v, w | Owns(PhaseOf(s, v), key) && Owns(PhaseOf(s, w), key) :: v == w)
  }

  lemma StepKeepsKeysUnique(world: World, s: State, e: Event)
    requires Consistent(s)
    ensures KeysUnique(MoveOf(world, s, e).rows)
  {
    if e.Insert? && e.id !in s.rows && !Taken(s.rows, e.key) { ReservingKeepsKeysUnique(s.rows, e.key, e.id); }
  }

  /** Rows are never deleted and never change key. */
  lemma RowsPersist(world: World, s: State, e: Event, key: Key, id: LedgerId)
    requires IsRowOf(s.rows, key, id)
    ensures IsRowOf(MoveOf(world, s, e).rows, key, id)
  {
  }

  lemma StepKeepsConsistent(world: World, s: State, e: Event)
    requires Consistent(s)
    ensures Consistent(Step(world, s, e))
  {
    var t := Step(world, s, e);
    StepKeepsKeysUnique(world, s, e);
    MoverStaysInformed(world, s, e);
    forall w ensures Informed(t, PhaseOf(t, w)) {
      if w != e.w { assert Informed(s, PhaseOf(s, w)); }
    }
  }

  lemma MoverStaysInformed(world: World, s: State, e: Event)
    requires Consistent(s)
    ensures Informed(Step(world, s, e), MoveOf(world, s, e).phase)
  {
    assert Informed(s, PhaseOf(s, e.w));
  }

  /** The worker that moves stays fair to the key. */
  lemma MoverStaysFair(world: World, s: State, e: Event, key: Key)
    requires Safe(world, key) && Good(s, key)
    ensures Fair(Step(world, s, e), key, MoveOf(world, s, e).phase)
  {
    assert Fair(s, key, PhaseOf(s, e.w)) && Informed(s, PhaseOf(s, e.w));
  }

  /** Nobody else's reservation is touched. */
  lemma OthersStayFair(world: World, s: State, e: Event, key: Key, w: Worker)
    requires Safe(world, key) && Good(s, key) && w != e.w
    ensures Fair(Step(world, s, e), key, PhaseOf(s, w))
  {
    var p := PhaseOf(s, w);
    assert Fair(s, key, PhaseOf(s, e.w)) && Informed(s, PhaseOf(s, e.w));
    assert Fair(s, key, p) && Informed(s, p);
    if Taken(s.rows, key) { RowsPersist(world, s, e, key, RowOf(s.rows, key)); }
  }

  /** A worker that gains the key was the only one that could. */
  lemma OwnershipIsExclusive(world: World, s: State, e: Event, key: Key, w: Worker)
    requires Safe(world, key) && Good(s, key) && w != e.w
    requires Owns(MoveOf(world, s, e).phase, key)
    ensures !Owns(PhaseOf(s, w), key)
  {
    assert Fair(s, key, PhaseOf(s, e.w)) && Informed(s, PhaseOf(s, e.w));
    assert Fair(s, key, PhaseOf(s, w)) && Informed(s, PhaseOf(s, w));
  }

  /** An insert that goes through finds the key untouched so far. */
  lemma InsertKeepsTallied(world: World, s: State, e: Event, key: Key)
    requires Safe(world, key) && Good(s, key) && e.Insert?
    ensures Tallied(Step(world, s, e), key)
  {
    var m := MoveOf(world, s, e);
    assert forall id | IsRowOf(m.rows, key, id) :: id == e.id || IsRowOf(s.rows, key, id);
    assert forall id | IsRowOf(s.rows, key, id) :: IsRowOf(m.rows, key, id);
  }

  /** A record settles its own worker's row and no other. */
  lemma RecordKeepsTallied(world: World, s: State, e: Event, key: Key)
    requires Safe(world, key) && Good(s, key) && e.Record?
    ensures Tallied(Step(world, s, e), key)
  {
    assert Fair(s, key, PhaseOf(s, e.w)) && Informed(s, PhaseOf(s, e.w));
    assert forall id :: IsRowOf(s.rows, key, id) <==> IsRowOf(MoveOf(world, s, e).rows, key, id);
  }

  lemma StepKeepsTallied(world: World, s: State, e: Event, key: Key)
    requires Safe(world, key) && Good(s, key) && !e.Insert? && !e.Record?
    ensures Tallied(Step(world, s, e), key)
  {
    assert Fair(s, key, PhaseOf(s, e.w)) && Informed(s, PhaseOf(s, e.w));
    assert forall id :: IsRowOf(s.rows, key, id) <==> IsRowOf(MoveOf(world, s, e).rows, key, id);
  }

  lemma StepKeepsGood(world: World, s: State, e: Event, key: Key)
    requires Safe(world, key) && Good(s, key)
    ensures Good(Step(world, s, e), key)
  {
    var t := Step(world, s, e);
    StepKeepsConsistent(world, s, e);
    if e.Insert? {
      InsertKeepsTallied(world, s, e, key);
    } else if e.Record? {
      RecordKeepsTallied(world, s, e, key);
    } else {
      StepKeepsTallied(world, s, e, key);
    }
    MoverStaysFair(world, s, e, key);
    forall w ensures Fair(t, key, PhaseOf(t, w)) {
      if w != e.w { OthersStayFair(world, s, e, key, w); }
    }
    forall v, w | Owns(PhaseOf(t, v), key) && Owns(PhaseOf(t, w), key) ensures v == w {
      if v == e.w && w != v { OwnershipIsExclusive(world, s, e, key, w); }
      if w == e.w && w != v { OwnershipIsExclusive(world, s, e, key, v); }
      if v != e.w && w != e.w { assert Owns(PhaseOf(s, v), key) && Owns(PhaseOf(s, w), key); }
    }
  }

  // ----- whole runs -------------------------------------------------------------

  lemma {:induction false} PlayKeepsGood(world: World, s: State, events: seq<Event>, key: Key)
    requires Safe(world, key) && Good(s, key)
    ensures Good(Play(world, s, events), key)
    decreases events
  {
    if events != [] {
      StepKeepsGood(world, s, events[0], key);
      PlayKeepsGood(world, Step(world, s, events[0]), events[1..], key);
    }
  }

  /** However workers race, crash and retry, the key's effect happens at most once; and exactly
      once as soon as its row says completed. */
  lemma EffectHappensOnce(world: World, events: seq<Event>, key: Key)
    requires Safe(world, key)
    ensures var s := Run(world, events);
      && s.fired[key] <= 1
      && forall id | IsRowOf(s.rows, key, id) && s.rows[id].status == Completed :: s.fired[key] == 1
  {
    PlayKeepsGood(world, START, events, key);
    var s := Run(world, events);
    if Taken(s.rows, key) { assert IsRowOf(s.rows, key, RowOf(s.rows, key)); }
  }

  /** The key's row is there to stay: completed, or left in flight by a worker that is gone. */
  ghost predicate Settled(s: State, key: Key, id: LedgerId, row: Row) {
    && IsRowOf(s.rows, key, id) && s.rows[id] == row
    && (row.status == Completed || (row.status == InFlight && forall w :: !Owns(PhaseOf(s, w), key)))
  }

  lemma StepKeepsSettled(world: World, s: State, e: Event, key: Key, id: LedgerId, row: Row)
    requires Safe(world, key) && Good(s, key) && Settled(s, key, id, row)
    ensures Settled(Step(world, s, e), key, id, row) && Step(world, s, e).fired[key] == s.fired[key]
  {
    var p := PhaseOf(s, e.w);
    assert Fair(s, key, p) && Informed(s, p);
    var t := Step(world, s, e);
    forall w ensures Owns(PhaseOf(t, w), key) ==> row.status == Completed {
      if w != e.w { assert PhaseOf(t, w) == PhaseOf(s, w); }
    }
  }

  lemma {:induction false} PlayKeepsSettled(world: World, s: State, events: seq<Event>, key: Key, id: LedgerId, row: Row)
    requires Safe(world, key) && Good(s, key) && Settled(s, key, id, row)
    ensures Settled(Play(world, s, events), key, id, row) && Play(world, s, events).fired[key] == s.fired[key]
    decreases events
  {
    if events != [] {
      StepKeepsGood(world, s, events[0], key);
      StepKeepsSettled(world, s, events[0], key, id, row);
      PlayKeepsSettled(world, Step(world, s, events[0]), events[1..], key, id, row);
    }
  }

  /** A completed row keeps its result for ever, and an orphaned in-flight row stays in flight:
      whatever happens next, the effect is not fired again. */
  lemma SettledForEver(world: World, events: seq<Event>, more: seq<Event>, key: Key, id: LedgerId, row: Row)
    requires Safe(world, key) && Settled(Run(world, events), key, id, row)
    ensures Settled(Run(world, events + more), key, id, row)
    ensures Run(world, events + more).fired[key] == Run(world, events).fired[key]
  {
    PlayKeepsGood(world, START, events, key);
    PlayAppend(world, START, events, more);
    PlayKeepsSettled(world, Run(world, events), more, key, id, row);
  }

  // ----- where a result comes from --------------------------------------------------

  /** The last event of a schedule is taken in the state that the others lead to. */
  lemma RunStep(world: World, events: seq<Event>, n: nat)
    requires n < |events|
    ensures Run(world, events[..n + 1]) == Step(world, Run(world, events[..n]), events[n])
  {
    assert events[..n + 1] == events[..n] + [events[n]];
    PlayAppend(world, START, events[..n], [events[n]]);
    PlaySingle(world, Run(world, events[..n]), events[n]);
  }

  /** A reply that is about to be recorded was answered to a call of the tool. */
  lemma {:induction false} ReplyHasCall(world: World, events: seq<Event>, n: nat, w: Worker) returns (m: nat)
    requires n <= |events| && PhaseOf(Run(world, events[..n]), w).Replied?
    ensures var p := PhaseOf(Run(world, events[..n]), w);
      && m < n && events[m].Call? && events[m].w == w && events[m].reply == p.reply
      && PhaseOf(Run(world, events[..m]), w) == Firing(p.key, p.reserved)
  {
    m := n - 1;
    RunStep(world, events, m);
    if !(events[m].w == w && events[m].Call? && PhaseOf(Run(world, events[..m]), w).Firing?) {
      m := ReplyHasCall(world, events, m, w);
    }
  }

  /** The result of a completed row is what the tool answered to a call made on the row's behalf,
      recorded after that call. */
  lemma {:induction false} ResultIsTheReply(world: World, events: seq<Event>, n: nat, key: Key, id: LedgerId)
      returns (m: nat, k: nat)
    requires n <= |events| && IsRowOf(Run(world, events[..n]).rows, key, id)
    requires Run(world, events[..n]).rows[id].status == Completed
    ensures m < k < n && events[m].Call? && events[k] == Record(events[m].w)
    ensures events[m].reply == Success(Run(world, events[..n]).rows[id].result)
    ensures PhaseOf(Run(world, events[..m]), events[m].w) == Firing(key, Some(id))
  {
    k := n - 1;
    RunStep(world, events, k);
    RunIsConsistent(world, events[..k]);
    var s, e := Run(world, events[..k]), events[k];
    assert Informed(s, PhaseOf(s, e.w));
    if id in s.rows && s.rows[id] == Run(world, events[..n]).rows[id] {
      m, k := ResultIsTheReply(world, events, k, key, id);
    } else {
      m := ReplyHasCall(world, events, k, e.w);
    }
  }

  lemma {:induction false} RunIsConsistent(world: World, events: seq<Event>)
    ensures Consistent(Run(world, events))
    decreases |events|
  {
    if events != [] {
      var n := |events| - 1;
      assert events[..n + 1] == events;
      RunIsConsistent(world, events[..n]);
      RunStep(world, events, n);
      StepKeepsConsistent(world, Run(world, events[..n]), events[n]);
    }
  }

  // ----- what the promise rests on -------------------------------------------------

  ghost predicate AtMostOnce(world: World, key: Key) {
    forall events :: Run(world, events).fired[key] <= 1
  }

  /** One worker's attempt, from its insert to its call. */
  function Attempt(w: Worker, key: Key, id: LedgerId, reply: Reply): seq<Event> {
    [Insert(w, key, id), LookUp(w), Reopen(w), Call(w, reply, true)]
  }

  lemma PlayOne(world: World, s: State, events: seq<Event>)
    requires events != []
    ensures Play(world, s, events) == Play(world, Step(world, s, events[0]), events[1..])
  {
  }

  lemma PlayFour(world: World, s: State, a: Event, b: Event, c: Event, d: Event)
    ensures Play(world, s, [a, b, c, d]) == Step(world, Step(world, Step(world, Step(world, s, a), b), c), d)
  {
    var s1 := Step(world, s, a);
    var s2 := Step(world, s1, b);
    var s3 := Step(world, s2, c);
    assert [a, b, c, d][1..] == [b, c, d] && [b, c, d][1..] == [c, d] && [c, d][1..] == [d] && [d][1..] == [];
    assert Play(world, s2, [c, d]) == Step(world, s3, d) by {
      assert Play(world, s3, [d]) == Play(world, Step(world, s3, d), []);
    }
    assert Play(world, s, [a, b, c, d]) == Play(world, s1, [b, c, d]);
  }

  /** An attempt in a workspace without a row: the ledger refuses the insert, finds no row to
      conflict with, and lets the call go ahead unreserved. */
  lemma UnreservedAttemptFires(world: World, s: State, w: Worker, key: Key, id: LedgerId)
    requires key.workspace !in world.workspaces && !Taken(s.rows, key)
    requires PhaseOf(s, w) == Idle && id !in s.rows
    ensures var t := Play(world, s, Attempt(w, key, id, Success(None)));
      t.fired == s.fired + multiset{key} && t.rows == s.rows && forall v | v != w :: PhaseOf(t, v) == PhaseOf(s, v)
  {
    PlayFour(world, s, Insert(w, key, id), LookUp(w), Reopen(w), Call(w, Success(None), true));
  }

  /** A first attempt at a key reserves it and calls the tool. */
  lemma FirstAttemptFires(world: World, s: State, w: Worker, key: Key, id: LedgerId, reply: Reply)
    requires key.workspace in world.workspaces && !Taken(s.rows, key) && TookEffect(world, reply, true)
    requires PhaseOf(s, w) == Idle && id !in s.rows
    ensures var t := Play(world, s, Attempt(w, key, id, reply));
      && t.fired == s.fired + multiset{key} && t.rows == Reserved(s.rows, key, id)
      && PhaseOf(t, w) == Replied(key, Some(id), reply) && forall v | v != w :: PhaseOf(t, v) == PhaseOf(s, v)
  {
    PlayFour(world, s, Insert(w, key, id), LookUp(w), Reopen(w), Call(w, reply, true));
  }

  /** A later attempt fires as well, if it takes an in-flight row for its own, or if the row failed. */
  lemma LaterAttemptFires(world: World, s: State, w: Worker, key: Key, id: LedgerId)
    requires KeysUnique(s.rows) && Taken(s.rows, key) && PhaseOf(s, w) == Idle && id !in s.rows
    requires s.rows[RowOf(s.rows, key)].status == (if world.refusesInFlight then Failed else InFlight)
    ensures var t := Play(world, s, Attempt(w, key, id, Success(None)));
      && t.fired == s.fired + multiset{key} && PhaseOf(t, w) == Replied(key, Some(RowOf(s.rows, key)), Success(None))
      && t.rows == if world.refusesInFlight then Reopened(s.rows, RowOf(s.rows, key)) else s.rows
  {
    PlayFour(world, s, Insert(w, key, id), LookUp(w), Reopen(w), Call(w, Success(None), true));
  }

  /** A retry of a completed key is skipped, whatever the tool would have answered. */
  lemma RetryAfterCompletionSkips(world: World, s: State, w: Worker, key: Key, id: LedgerId, reply: Reply)
    requires KeysUnique(s.rows) && Taken(s.rows, key) && s.rows[RowOf(s.rows, key)].status == Completed
    requires PhaseOf(s, w) == Idle && id !in s.rows
    ensures var t := Play(world, s, Attempt(w, key, id, reply));
      t.rows == s.rows && t.fired == s.fired && PhaseOf(t, w) == Idle
  {
    PlayFour(world, s, Insert(w, key, id), LookUp(w), Reopen(w), Call(w, reply, true));
  }

  lemma UnreservedCallsRepeat(world: World, key: Key)
    requires key.workspace !in world.workspaces
    ensures exists events :: Run(world, events).fired[key] == 2
  {
    var v, w, id := Worker(1), Worker(2), LedgerId("1");
    var first, second := Attempt(v, key, id, Success(None)), Attempt(w, key, id, Success(None));
    UnreservedAttemptFires(world, START, v, key, id);
    UnreservedAttemptFires(world, Run(world, first), w, key, id);
    PlayAppend(world, START, first, second);
    assert Run(world, first + second).fired[key] == 2;
  }

  lemma InFlightCallsRepeat(world: World, key: Key)
    requires key.workspace in world.workspaces && !world.refusesInFlight
    ensures exists events :: Run(world, events).fired[key] == 2
  {
    var v, w, id, id' := Worker(1), Worker(2), LedgerId("1"), LedgerId("2");
    var first, second := Attempt(v, key, id, Success(None)), Attempt(w, key, id', Success(None));
    FirstAttemptFires(world, START, v, key, id, Success(None));
    var s := Run(world, first);
    assert IsRowOf(s.rows, key, id);
    LaterAttemptFires(world, s, w, key, id');
    PlayAppend(world, START, first, second);
    assert Run(world, first + second).fired[key] == 2;
  }

  lemma DirtyErrorsRepeat(world: World, key: Key)
    requires key.workspace in world.workspaces && world.refusesInFlight && !world.errorsAreClean
    ensures exists events :: Run(world, events).fired[key] == 2
  {
    var v, w, id, id' := Worker(1), Worker(2), LedgerId("1"), LedgerId("2");
    var first, second := Attempt(v, key, id, Error("timeout")), Attempt(w, key, id', Success(None));
    FirstAttemptFires(world, START, v, key, id, Error("timeout"));
    var r := Run(world, first);
    assert PhaseOf(r, w) == Idle;
    var s := Step(world, r, Record(v));
    PlayAppend(world, START, first, [Record(v)]);
    assert [Record(v)][1..] == [];
    PlayOne(world, r, [Record(v)]);
    assert IsRowOf(s.rows, key, id);
    LaterAttemptFires(world, s, w, key, id');
    PlayAppend(world, START, first + [Record(v)], second);
    assert Run(world, first + [Record(v)] + second).fired[key] == 2;
  }

  /** At most once, over all schedules, exactly when the workspace exists, in-flight rows are
      refused, and an error answer means that nothing happened. */
  lemma AtMostOnceIffSafe(world: World, key: Key)
    ensures AtMostOnce(world, key) <==> Safe(world, key)
  {
    if Safe(world, key) {
      forall events ensures Run(world, events).fired[key] <= 1 { EffectHappensOnce(world, events, key); }
    } else if key.workspace !in world.workspaces {
      UnreservedCallsRepeat(world, key);
    } else if !world.refusesInFlight {
      InFlightCallsRepeat(world, key);
    } else {
      DirtyErrorsRepeat(world, key);
    }
  }

  // ----- the machine and the class ----------------------------------------------------

  /** One attempt from its insert to its record. */
  function Whole(w: Worker, key: Key, id: LedgerId, reply: Reply, happened: bool): seq<Event> {
    [Insert(w, key, id), LookUp(w), Reopen(w), Call(w, reply, happened)] + [Record(w)]
  }

  lemma WholeSteps(world: World, s: State, w: Worker, key: Key, id: LedgerId, reply: Reply, happened: bool)
    ensures Play(world, s, Whole(w, key, id, reply, happened)) ==
      Step(world, Play(world, s, [Insert(w, key, id), LookUp(w), Reopen(w), Call(w, reply, happened)]), Record(w))
  {
    var attempt := [Insert(w, key, id), LookUp(w), Reopen(w), Call(w, reply, happened)];
    PlayAppend(world, s, attempt, [Record(w)]);
    PlaySingle(world, Play(world, s, attempt), Record(w));
  }

  lemma FirstWhole(world: World, s: State, w: Worker, key: Key, id: LedgerId, reply: Reply, happened: bool)
    requires !Taken(s.rows, key) && PhaseOf(s, w) == Idle && id !in s.rows
    ensures var t := Play(world, s, Whole(w, key, id, reply, happened));
      && t.rows == (if key.workspace in world.workspaces then Recorded(Reserved(s.rows, key, id), Some(id), reply) else s.rows)
      && PhaseOf(t, w) == Idle && t.fired == Fire(s.fired, key, TookEffect(world, reply, happened))
  {
    WholeSteps(world, s, w, key, id, reply, happened);
    PlayFour(world, s, Insert(w, key, id), LookUp(w), Reopen(w), Call(w, reply, happened));
  }

  lemma RefusedWhole(world: World, s: State, w: Worker, key: Key, id: LedgerId, reply: Reply, happened: bool)
    requires Taken(s.rows, key) && s.rows[RowOf(s.rows, key)].status != Failed
    requires world.refusesInFlight && PhaseOf(s, w) == Idle && id !in s.rows
    ensures var t := Play(world, s, Whole(w, key, id, reply, happened));
      t.rows == s.rows && PhaseOf(t, w) == Idle && t.fired == s.fired
  {
    WholeSteps(world, s, w, key, id, reply, happened);
    PlayFour(world, s, Insert(w, key, id), LookUp(w), Reopen(w), Call(w, reply, happened));
  }

  lemma ReopenedWhole(world: World, s: State, w: Worker, key: Key, id: LedgerId, reply: Reply, happened: bool)
    requires Taken(s.rows, key) && s.rows[RowOf(s.rows, key)].status == Failed
    requires PhaseOf(s, w) == Idle && id !in s.rows
    ensures var j, t := RowOf(s.rows, key), Play(world, s, Whole(w, key, id, reply, happened));
      && t.rows == Recorded(Reserved(s.rows, key, j), Some(j), reply)
      && PhaseOf(t, w) == Idle && t.fired == Fire(s.fired, key, TookEffect(world, reply, happened))
  {
    var j := RowOf(s.rows, key);
    assert Reopened(s.rows, j) == Reserved(s.rows, key, j);
    WholeSteps(world, s, w, key, id, reply, happened);
    PlayFour(world, s, Insert(w, key, id), LookUp(w), Reopen(w), Call(w, reply, happened));
  }

  /** An attempt that nothing disturbs is what the ledger's wrapper does in one go. */
  lemma AttemptIsExecute(world: World, s: State, w: Worker, key: Key, id: LedgerId, reply: Reply, happened: bool)
    returns (called: bool, answer: Option<Reply>)
    requires world.refusesInFlight && KeysUnique(s.rows) && PhaseOf(s, w) == Idle && id !in s.rows
    ensures var t := Play(world, s, Whole(w, key, id, reply, happened));
      && Executed(world.workspaces, s.rows, true, key, id, reply, called, answer, t.rows)
      && PhaseOf(t, w) == Idle && t.fired == Fire(s.fired, key, called && TookEffect(world, reply, happened))
  {
    if !Taken(s.rows, key) {
      FirstWhole(world, s, w, key, id, reply, happened);
      assert forall i :: !IsRowOf(s.rows, key, i);
      called, answer := true, Some(reply);
    } else {
      var j := RowOf(s.rows, key);
      assert forall i | IsRowOf(s.rows, key, i) :: i == j;
      called := s.rows[j].status == Failed;
      if called {
        ReopenedWhole(world, s, w, key, id, reply, happened);
        answer := Some(reply);
      } else {
        RefusedWhole(world, s, w, key, id, reply, happened);
        answer := if s.rows[j].status == Completed then Some(Success(s.rows[j].result)) else None;
      }
    }
  }

  // ----- which writes can still be completed ------------------------------------------

  ghost predicate IsCompleted(s: State, key: Key) {
    exists id :: IsRowOf(s.rows, key, id) && s.rows[id].status == Completed
  }

  /** The key's row is in flight, and the worker that reserved it is gone. */
  ghost predicate Orphaned(s: State, key: Key) {
    && (exists id :: IsRowOf(s.rows, key, id) && s.rows[id].status == InFlight)
    && forall w :: !Owns(PhaseOf(s, w), key)
  }

  /** A worker that dies while it holds the reservation, or whose call raises, leaves it so. */
  lemma DeathOrphans(world: World, s: State, e: Event, key: Key)
    requires Safe(world, key) && Good(s, key) && Owns(PhaseOf(s, e.w), key)
    requires e.Crash? || (e.CallRaises? && PhaseOf(s, e.w).Firing?)
    ensures Orphaned(Step(world, s, e), key)
  {
    var t := Step(world, s, e);
    assert Fair(s, key, PhaseOf(s, e.w)) && Informed(s, PhaseOf(s, e.w));
    assert IsRowOf(t.rows, key, PhaseOf(s, e.w).reserved.value);
    forall v ensures !Owns(PhaseOf(t, v), key) {
      if v != e.w { assert PhaseOf(t, v) == PhaseOf(s, v); }
    }
  }

  /** There are always a worker that has done nothing yet and an unused id. */
  lemma {:induction false} FreshWorker(phases: map<Worker, Phase>) returns (n: nat)
    ensures forall w | w in phases :: w.number < n
    decreases phases.Keys
  {
    if phases == map[] {
      n := 0;
    } else {
      var w :| w in phases;
      var m := FreshWorker(phases - {w});
      n := if w.number < m then m else w.number + 1;
      forall v | v in phases ensures v.number < n {
        if v != w { assert v in phases - {w}; }
      }
    }
  }

  lemma {:induction false} FreshId(ids: set<LedgerId>) returns (ulid: string)
    ensures forall id | id in ids :: |id.ulid| < |ulid|
    decreases ids
  {
    if ids == {} {
      ulid := "";
    } else {
      var id :| id in ids;
      var rest := FreshId(ids - {id});
      ulid := id.ulid + rest + "0";
      forall j | j in ids ensures |j.ulid| < |ulid| {
        if j != id { assert j in ids - {id}; }
      }
    }
  }

  /** A whole attempt that succeeds. */
  function FullAttempt(w: Worker, key: Key, id: LedgerId): seq<Event> {
    Attempt(w, key, id, Success(None)) + [Record(w)]
  }

  /** Where the key has no row, or a failed one, a fresh worker completes it. */
  lemma FullAttemptCompletes(world: World, s: State, w: Worker, key: Key, id: LedgerId)
    requires Safe(world, key) && KeysUnique(s.rows) && PhaseOf(s, w) == Idle && id !in s.rows
    requires Taken(s.rows, key) ==> s.rows[RowOf(s.rows, key)].status == Failed
    ensures IsCompleted(Play(world, s, FullAttempt(w, key, id)), key)
  {
    var attempt := Attempt(w, key, id, Success(None));
    PlayAppend(world, s, attempt, [Record(w)]);
    if Taken(s.rows, key) {
      LaterAttemptFires(world, s, w, key, id);
    } else {
      FirstAttemptFires(world, s, w, key, id, Success(None));
    }
    var r := Play(world, s, attempt);
    var row := if Taken(s.rows, key) then RowOf(s.rows, key) else id;
    assert IsRowOf(r.rows, key, row);
    PlaySingle(world, r, Record(w));
    assert IsRowOf(Step(world, r, Record(w)).rows, key, row);
  }

  lemma PlaySingle(world: World, s: State, e: Event)
    ensures Play(world, s, [e]) == Step(world, s, e)
  {
    assert [e][1..] == [];
    PlayOne(world, s, [e]);
  }

  /** What the owner of an in-flight row does next until it has recorded its reply. */
  function OwnerFinishes(p: Phase, w: Worker): seq<Event> {
    (if p.Firing? then [Call(w, Success(None), true)] else []) + [Record(w)]
  }

  /** It leaves the row completed or failed. */
  lemma OwnerLands(world: World, s: State, w: Worker, key: Key)
    requires Safe(world, key) && Good(s, key) && Owns(PhaseOf(s, w), key)
    ensures var t := Play(world, s, OwnerFinishes(PhaseOf(s, w), w));
      Taken(t.rows, key) && t.rows[RowOf(t.rows, key)].status != InFlight
  {
    var p := PhaseOf(s, w);
    assert Fair(s, key, p) && Informed(s, p);
    var finish := OwnerFinishes(p, w);
    PlayKeepsGood(world, s, finish, key);
    if p.Firing? {
      var call := Call(w, Success(None), true);
      assert finish == [call, Record(w)] && finish[1..] == [Record(w)];
      PlayOne(world, s, finish);
      PlaySingle(world, Step(world, s, call), Record(w));
    } else {
      assert finish == [Record(w)];
      PlaySingle(world, s, Record(w));
    }
    assert IsRowOf(Play(world, s, finish).rows, key, p.reserved.value);
  }

  /** Where the key is not in flight, it is completed or can be. */
  lemma LandedCompletes(world: World, s: State, key: Key) returns (more: seq<Event>)
    requires Safe(world, key) && Good(s, key)
    requires Taken(s.rows, key) ==> s.rows[RowOf(s.rows, key)].status != InFlight
    ensures IsCompleted(Play(world, s, more), key)
  {
    if IsCompleted(s, key) {
      more := [];
    } else {
      var n := FreshWorker(s.phases);
      var ulid := FreshId(s.rows.Keys);
      more := FullAttempt(Worker(n), key, LedgerId(ulid));
      if Taken(s.rows, key) { assert IsRowOf(s.rows, key, RowOf(s.rows, key)); }
      FullAttemptCompletes(world, s, Worker(n), key, LedgerId(ulid));
    }
  }

  lemma UnorphanedCompletes(world: World, s: State, key: Key) returns (more: seq<Event>)
    requires Safe(world, key) && Good(s, key) && !Orphaned(s, key)
    ensures IsCompleted(Play(world, s, more), key)
  {
    if w :| Owns(PhaseOf(s, w), key) {
      var finish := OwnerFinishes(PhaseOf(s, w), w);
      OwnerLands(world, s, w, key);
      PlayKeepsGood(world, s, finish, key);
      var rest := LandedCompletes(world, Play(world, s, finish), key);
      PlayAppend(world, s, finish, rest);
      more := finish + rest;
    } else {
      if Taken(s.rows, key) { assert IsRowOf(s.rows, key, RowOf(s.rows, key)); }
      more := LandedCompletes(world, s, key);
    }
  }

  /** Whatever has happened so far, a write can still be completed exactly when its row was not
      left in flight by a worker that is gone. */
  lemma CompletableIffNotOrphaned(world: World, events: seq<Event>, key: Key)
    requires Safe(world, key)
    ensures (exists more :: IsCompleted(Run(world, events + more), key)) <==> !Orphaned(Run(world, events), key)
  {
    var s := Run(world, events);
    PlayKeepsGood(world, START, events, key);
    if Orphaned(s, key) {
      var id :| IsRowOf(s.rows, key, id) && s.rows[id].status == InFlight;
      forall more ensures !IsCompleted(Run(world, events + more), key) {
        SettledForEver(world, events, more, key, id, s.rows[id]);
        PlayKeepsGood(world, START, events + more, key);
        assert IsRowOf(Run(world, events + more).rows, key, id);
      }
    } else {
      var more := UnorphanedCompletes(world, s, key);
      PlayAppend(world, START, events, more);
    }
  }
}
