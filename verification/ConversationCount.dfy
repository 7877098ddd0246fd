/** A conversation's message counter and its message rows, over chat turns and resumed turns. */
module ConversationCount {

  datatype Role = User | Assistant

  /** How one turn went: whether it is a chat turn (which inserts the user's message first), whether
      that insert worked, whether the caller owns the conversation, whether there was a reply, and
      whether the final transaction committed. */
  datatype Turn = Turn(chat: bool, userSaved: bool, owned: bool, replied: bool, persisted: bool)

  /** The final transaction counts the turn. */
  predicate Counted(t: Turn) {
    t.owned && t.persisted
  }

  function RowsOf(t: Turn): seq<Role> {
    (if t.chat && t.userSaved then [User] else []) + (if Counted(t) && t.replied then [Assistant] else [])
  }

  function IncrementOf(t: Turn): nat {
    if !Counted(t) then 0 else (if t.chat then 1 else 0) + (if t.replied then 1 else 0)
  }

  class Conversation {
    var rows: seq<Role>
    var messageCount: nat

    constructor ()
      ensures rows == [] && messageCount == 0
    {
      rows, messageCount := [], 0;
    }

    /** A chat turn inserts the user's message without counting it; both kinds then persist the
        reply, if there is one, and the counter in one transaction, for owned conversations only. */
    method TakeTurn(t: Turn)
      modifies this
      ensures rows == old(rows) + (if t.chat && t.userSaved then [User] else [])
                      + (if t.owned && t.persisted && t.replied then [Assistant] else [])
      ensures messageCount == old(messageCount) + (if t.chat && t.owned && t.persisted then 1 else 0)
                              + (if t.replied && t.owned && t.persisted then 1 else 0)
      ensures rows == old(rows) + RowsOf(t)
      ensures messageCount == old(messageCount) + IncrementOf(t)
    {
      if t.chat && t.userSaved { rows := rows + [User]; }
      var increment := if t.chat then 1 else 0;
      if t.owned && t.persisted {
        if t.replied {
          rows := rows + [Assistant];
          increment := increment + 1;
        }
        messageCount := messageCount + increment;
      }
    }

    /** Any sequence of turns. */
    method TakeTurns(turns: seq<Turn>)
      modifies this
      ensures |rows| == |old(rows)| + RowsAdded(turns)
      ensures messageCount == old(messageCount) + CountAdded(turns)
    {
      for i := 0 to |turns|
        invariant |rows| == |old(rows)| + RowsAdded(turns[..i])
        invariant messageCount == old(messageCount) + CountAdded(turns[..i])
      {
        assert turns[..i + 1][..i] == turns[..i];
        TakeTurn(turns[i]);
      }
      assert turns[..|turns|] == turns;
    }
  }

  function RowsAdded(turns: seq<Turn>): nat {
    if turns == [] then 0 else RowsAdded(turns[..|turns| - 1]) + |RowsOf(turns[|turns| - 1])|
  }

  function CountAdded(turns: seq<Turn>): nat {
    if turns == [] then 0 else CountAdded(turns[..|turns| - 1]) + IncrementOf(turns[|turns| - 1])
  }

  /** The user's message of a chat turn was saved exactly when the turn was counted. */
  predicate Clean(t: Turn) {
    t.chat ==> (t.userSaved <==> Counted(t))
  }

  /** The counter is the number of rows after every turn. */
  ghost predicate AlwaysExact(turns: seq<Turn>) {
    forall n | 0 <= n <= |turns| :: CountAdded(turns[..n]) == RowsAdded(turns[..n])
  }

  predicate AllClean(turns: seq<Turn>) {
    forall i | 0 <= i < |turns| :: Clean(turns[i])
  }

  lemma AlwaysExactStep(before: seq<Turn>, t: Turn)
    ensures AlwaysExact(before + [t]) <==> AlwaysExact(before) && IncrementOf(t) == |RowsOf(t)|
  {
    var turns := before + [t];
    forall k | 0 <= k <= |before| ensures turns[..k] == before[..k] {}
    assert turns[..|turns|] == turns && turns[..|turns| - 1] == before && before[..|before|] == before;
    if AlwaysExact(turns) {
      forall k | 0 <= k <= |before| ensures CountAdded(before[..k]) == RowsAdded(before[..k]) {
        assert CountAdded(turns[..k]) == RowsAdded(turns[..k]);
      }
      assert CountAdded(turns[..|turns|]) == RowsAdded(turns[..|turns|]);
    }
  }

  /** The counter stays exact exactly when every turn is clean: in particular when the conversation
      is owned and every write succeeds, replies or not. */
  lemma {:induction false} ExactIffClean(turns: seq<Turn>)
    ensures AlwaysExact(turns) <==> AllClean(turns)
  {
    if turns != [] {
      var before, t := turns[..|turns| - 1], turns[|turns| - 1];
      assert turns == before + [t];
      ExactIffClean(before);
      AlwaysExactStep(before, t);
      assert AllClean(turns) <==> AllClean(before) && Clean(t);
    }
  }

  /** Chat turns whose message was saved and not counted, and those counted and not saved. */
  function Uncounted(turns: seq<Turn>): nat {
    if turns == [] then 0
    else
      var t := turns[|turns| - 1];
      Uncounted(turns[..|turns| - 1]) + if t.chat && t.userSaved && !Counted(t) then 1 else 0
  }

  function Unsaved(turns: seq<Turn>): nat {
    if turns == [] then 0
    else
      var t := turns[|turns| - 1];
      Unsaved(turns[..|turns| - 1]) + if t.chat && !t.userSaved && Counted(t) then 1 else 0
  }

  /** After any turns the counter is off by exactly the difference of the two, whatever replies and
      resumed turns came in between. */
  lemma {:induction false} CounterIsOffBy(turns: seq<Turn>)
    ensures CountAdded(turns) + Uncounted(turns) == RowsAdded(turns) + Unsaved(turns)
  {
    if turns != [] { CounterIsOffBy(turns[..|turns| - 1]); }
  }

  /** A turn whose writes all succeed in a conversation of one's own counts what it stores: the
      reply, and in a chat turn the message before it. */
  lemma CleanTurnCounts(t: Turn)
    requires t.owned && t.persisted && t.userSaved
    ensures |RowsOf(t)| == IncrementOf(t) == (if t.chat then 1 else 0) + (if t.replied then 1 else 0)
    ensures t.chat ==> RowsOf(t)[0] == User
    ensures t.replied ==> RowsOf(t)[|RowsOf(t)| - 1] == Assistant
  {
  }

  /** A turn that is not counted stores no reply and, of a chat turn, just the message. */
  lemma UncountedTurnStoresTheMessage(t: Turn)
    requires !t.owned || !t.persisted
    ensures IncrementOf(t) == 0 && RowsOf(t) == if t.chat && t.userSaved then [User] else []
  {
  }

  /** Someone else's conversation gains a row for every message sent to it, and is never counted. */
  lemma {:induction false} UnownedRowsAreUncounted(turns: seq<Turn>)
    requires forall i | 0 <= i < |turns| :: turns[i].chat && turns[i].userSaved && !turns[i].owned
    ensures RowsAdded(turns) == |turns| && CountAdded(turns) == 0
  {
    if turns != [] { UnownedRowsAreUncounted(turns[..|turns| - 1]); }
  }
}
