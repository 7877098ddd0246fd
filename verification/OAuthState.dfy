/** The single-use state store behind an OAuth authorization (the `state` of section 10.12 of
    RFC 6749): set-if-absent with a time to live, and get-and-delete. */
module OAuthState {
  import opened Orders

  datatype Token = Token(text: string)
  datatype User = User(id: string)
  datatype Binding = Binding(user: User, expires: int)
  type Store = map<Token, Binding>

  const TTL := 600
  const NOBODY := User("")
  const NO_TOKEN := Token("")

  /** How a consuming command fared: answered, failed before it took effect, or failed after. */
  datatype Fate = Answered | LostBefore | LostAfter

  datatype Call =
    | Issue(at: int, token: Token, user: User)
    | Consume(at: int, token: Token, fate: Fate)

  /** Who the token names at a point in time; an expired key is not there. */
  function Live(store: Store, token: Token, at: int): Option<User> {
    if token in store && at < store[token].expires then Some(store[token].user) else None
  }

  /** A token is bound only where there is a user, and no binding to overwrite. */
  predicate Binds(store: Store, c: Call) {
    c.Issue? && c.user != NOBODY && Live(store, c.token, c.at).None?
  }

  /** A call that makes the token's key go away. */
  predicate Takes(c: Call, token: Token) {
    c.Consume? && c.token == token && c.token != NO_TOKEN && c.fate != LostBefore
  }

  function StoreAfterCall(store: Store, c: Call): Store {
    if Binds(store, c) then store[c.token := Binding(c.user, c.at + TTL)]
    else if c.Consume? && Takes(c, c.token) then store - {c.token}
    else store
  }

  function Result(store: Store, c: Call): Option<User> {
    if c.Consume? && c.token != NO_TOKEN && c.fate == Answered then Live(store, c.token, c.at) else None
  }

  class States {
    var store: Store

    constructor ()
      ensures store == map[]
    {
      store := map[];
    }

    /** `token` is the random one; a refusal is an exception. */
    method IssueState(at: int, token: Token, user: User) returns (ok: bool)
      modifies this
      ensures ok <==> user.id != "" && !(token in old(store) && at < old(store)[token].expires)
      ensures store == if ok then old(store)[token := Binding(user, at + 600)] else old(store)
      ensures ok <==> Binds(old(store), Issue(at, token, user))
      ensures store == StoreAfterCall(old(store), Issue(at, token, user))
    {
      if user == NOBODY { return false; }
      if token in store && at < store[token].expires { return false; }
      store := store[token := Binding(user, at + TTL)];
      ok := true;
    }

    method ConsumeState(at: int, token: Token, fate: Fate) returns (user: Option<User>)
      modifies this
      ensures user.Some? <==>
        token.text != "" && fate == Answered && token in old(store) && at < old(store)[token].expires
      ensures user.Some? ==> user.value == old(store)[token].user
      ensures store == if token.text == "" || fate == LostBefore then old(store) else old(store) - {token}
      ensures user == Result(old(store), Consume(at, token, fate))
      ensures store == StoreAfterCall(old(store), Consume(at, token, fate))
    {
      if token == NO_TOKEN || fate == LostBefore { return None; }
      user := if token in store && at < store[token].expires then Some(store[token].user) else None;
      store := store - {token};
      if fate == LostAfter { user := None; }
    }
  }

  // ----- histories ------------------------------------------------------------------

  /** The store after a history of calls. */
  function After(calls: seq<Call>): Store {
    if calls == [] then map[] else StoreAfterCall(After(calls[..|calls| - 1]), calls[|calls| - 1])
  }

  predicate InOrder(calls: seq<Call>) {
    forall i, j | 0 <= i < j < |calls| :: calls[i].at <= calls[j].at
  }

  /** The j-th call bound its token. */
  predicate Bound(calls: seq<Call>, j: nat) {
    j < |calls| && Binds(After(calls[..j]), calls[j])
  }

  /** The j-th call bound this token, and nothing took or rebound it before the n-th. */
  ghost predicate StillBound(calls: seq<Call>, token: Token, j: nat, n: nat) {
    && j < n <= |calls| && Bound(calls, j) && calls[j].token == token
    && forall k | j < k < n :: !Takes(calls[k], token) && !(Bound(calls, k) && calls[k].token == token)
  }

  lemma {:induction false} BindingHasSource(calls: seq<Call>, n: nat, token: Token) returns (j: nat)
    requires n <= |calls| && token in After(calls[..n])
    ensures StillBound(calls, token, j, n)
    ensures After(calls[..n])[token] == Binding(calls[j].user, calls[j].at + TTL)
  {
    var m := n - 1;
    assert calls[..n][..m] == calls[..m] && calls[..n][m] == calls[m];
    if Bound(calls, m) && calls[m].token == token {
      j := m;
    } else {
      j := BindingHasSource(calls, m, token);
    }
  }

  lemma {:induction false} SourceHasBinding(calls: seq<Call>, token: Token, j: nat, n: nat)
    requires StillBound(calls, token, j, n)
    ensures token in After(calls[..n]) && After(calls[..n])[token] == Binding(calls[j].user, calls[j].at + TTL)
    decreases n
  {
    var m := n - 1;
    assert calls[..n][..m] == calls[..m] && calls[..n][m] == calls[m];
    if m > j { SourceHasBinding(calls, token, j, m); }
  }

  /** The issue a consumption redeems: same token, in time, nothing having taken the token since. */
  ghost predicate Redeems(calls: seq<Call>, i: nat, j: nat) {
    && j < i < |calls| && calls[i].Consume? && Bound(calls, j) && calls[j].token == calls[i].token
    && calls[i].at < calls[j].at + TTL && forall k | j < k < i :: !Takes(calls[k], calls[i].token)
  }

  /** A token bound in time and not yet taken cannot have been bound again. */
  lemma NotRebound(calls: seq<Call>, i: nat, j: nat)
    requires InOrder(calls) && Redeems(calls, i, j)
    ensures StillBound(calls, calls[i].token, j, i)
  {
    var token := calls[i].token;
    if k :| j < k < i && Bound(calls, k) && calls[k].token == token
            && forall l | j < l < k :: !(Bound(calls, l) && calls[l].token == token)
    {
      SourceHasBinding(calls, token, j, k);
    }
    FirstRebinding(calls, token, j, i);
  }

  /** If anything rebinds the token there is a first one to do so. */
  lemma {:induction false} FirstRebinding(calls: seq<Call>, token: Token, j: nat, i: nat)
    requires j < i <= |calls|
    requires forall k | j < k < i && Bound(calls, k) && calls[k].token == token ::
      exists l :: j < l < k && Bound(calls, l) && calls[l].token == token
    ensures forall k | j < k < i :: !(Bound(calls, k) && calls[k].token == token)
    decreases i
  {
    if i > j + 1 { FirstRebinding(calls, token, j, i - 1); }
  }

  /** A consumption yields a user exactly when it reaches the store and redeems an issue to that
      user: a spent, expired or never issued token yields nothing. */
  lemma YieldsIffRedeems(calls: seq<Call>, i: nat, user: User)
    requires InOrder(calls) && i < |calls| && calls[i].Consume?
    ensures Result(After(calls[..i]), calls[i]) == Some(user) <==>
      && calls[i].fate == Answered && calls[i].token != NO_TOKEN
      && exists j: nat :: Redeems(calls, i, j) && calls[j].user == user
  {
    if Result(After(calls[..i]), calls[i]) == Some(user) {
      var j := BindingHasSource(calls, i, calls[i].token);
      assert Redeems(calls, i, j);
    }
    if calls[i].fate == Answered && calls[i].token != NO_TOKEN {
      if j: nat :| Redeems(calls, i, j) && calls[j].user == user {
        NotRebound(calls, i, j);
        SourceHasBinding(calls, calls[i].token, j, i);
      }
    }
  }

  /** No two successful consumptions redeem the same issue, and none redeems two. */
  lemma RedeemsOnce(calls: seq<Call>, i: nat, i': nat, j: nat, j': nat)
    requires InOrder(calls) && Redeems(calls, i, j) && Redeems(calls, i', j')
    requires Result(After(calls[..i]), calls[i]).Some? && Result(After(calls[..i']), calls[i']).Some?
    ensures i == i' <==> j == j'
  {
    if j == j' && i < i' { assert Takes(calls[i], calls[i].token); }
    if j == j' && i' < i { assert Takes(calls[i'], calls[i'].token); }
    if i == i' {
      NotRebound(calls, i, j);
      NotRebound(calls, i, j');
    }
  }

  /** A token that was issued to somebody, and by no other call, yields that user to the first
      consumption that is answered, if it comes within ten minutes, and nothing later. */
  lemma IssuedTokenWorksInTime(calls: seq<Call>, j: nat, i: nat)
    requires j < i < |calls| && calls[j].Issue? && calls[j].user.id != ""
    requires calls[i] == Consume(calls[i].at, calls[j].token, Answered) && calls[j].token.text != ""
    requires forall k | 0 <= k < i && k != j && calls[k].Issue? :: calls[k].token != calls[j].token
    requires forall k | j < k < i && calls[k].Consume? && calls[k].token == calls[j].token :: calls[k].fate == LostBefore
    ensures Result(After(calls[..i]), calls[i]) == if calls[i].at < calls[j].at + 600 then Some(calls[j].user) else None
  {
    var token := calls[j].token;
    if token in After(calls[..j]) { var k := BindingHasSource(calls, j, token); }
    assert Bound(calls, j);
    assert StillBound(calls, token, j, i);
    SourceHasBinding(calls, token, j, i);
  }

  /** A token that reached the store once is spent, even where the answer got lost on its way. */
  lemma SpentTokenYieldsNothing(calls: seq<Call>, j: nat, i: nat)
    requires j < i < |calls| && calls[j].Consume? && calls[j].fate != LostBefore
    requires calls[i].Consume? && calls[i].token == calls[j].token && calls[j].token.text != ""
    requires forall k | j < k < i && calls[k].Issue? :: calls[k].token != calls[j].token
    ensures Result(After(calls[..i]), calls[i]) == None
  {
    var token := calls[j].token;
    if token in After(calls[..i]) {
      var k := BindingHasSource(calls, i, token);
      assert k < j;
      assert Takes(calls[j], token);
    }
  }
}
