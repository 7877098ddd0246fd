/** JSON values, and the decoder that the output of a language model is read with: Python's, which
    also takes three constants that RFC 8259 does not have. */
module Json {
  import opened Orders
  import opened JsonStrings

  /** A number is kept as its lexeme; a member list is kept in the order of a Python dict. */
  datatype Json =
    | Null
    | Bool(b: bool)
    | Number(lexeme: Text)
    | Str(s: Text)
    | Array(items: seq<Json>)
    | Object(members: seq<Member>)
  datatype Member = Member(key: Text, value: Json)

  const COMMA: Code := 44
  const COLON: Code := 58
  const OPEN_BRACKET: Code := 91
  const CLOSE_BRACKET: Code := 93
  const OPEN_BRACE: Code := 123
  const CLOSE_BRACE: Code := 125

  const NULL: Text := [110, 117, 108, 108]
  const TRUE: Text := [116, 114, 117, 101]
  const FALSE: Text := [102, 97, 108, 115, 101]
  const NAN: Text := [78, 97, 78]
  const INFINITY: Text := [73, 110, 102, 105, 110, 105, 116, 121]
  const MINUS_INFINITY: Text := [45, 73, 110, 102, 105, 110, 105, 116, 121]

  predicate Blank(c: Code) {
    c == 32 || c == 9 || c == 10 || c == 13
  }

  function Skip(s: Text): (r: Text)
    ensures |r| <= |s| && (|r| > 0 ==> !Blank(r[0]))
  {
    if |s| > 0 && Blank(s[0]) then Skip(s[1..]) else s
  }

  // ----- the decoder --------------------------------------------------------------

  /** A later value for a key replaces the earlier one where it stood. */
  function Put(members: seq<Member>, m: Member): (r: seq<Member>)
    ensures |r| <= |members| + 1
  {
    if members == [] then [m]
    else if members[0].key == m.key then [m] + members[1..]
    else [members[0]] + Put(members[1..], m)
  }

  /** The dict a list of pairs builds. */
  function Dict(pairs: seq<Member>): seq<Member> {
    if pairs == [] then [] else Put(Dict(pairs[..|pairs| - 1]), pairs[|pairs| - 1])
  }

  /** A value that is a word or a number. */
  function Scalar(s: Text): (r: Option<Parsed<Json>>)
    ensures r.Some? ==> |r.value.rest| < |s|
  {
    if NULL <= s then Some(Parsed(Null, s[4..]))
    else if TRUE <= s then Some(Parsed(Bool(true), s[4..]))
    else if FALSE <= s then Some(Parsed(Bool(false), s[5..]))
    else if NAN <= s then Some(Parsed(Number(NAN), s[3..]))
    else if INFINITY <= s then Some(Parsed(Number(INFINITY), s[8..]))
    else if MINUS_INFINITY <= s then Some(Parsed(Number(MINUS_INFINITY), s[9..]))
    else if NumberLen(s) > 0 then Some(Parsed(Number(s[..NumberLen(s)]), s[NumberLen(s)..]))
    else None
  }

  /** The value s begins with. */
  function Value(s: Text): (r: Option<Parsed<Json>>)
    ensures r.Some? ==> |r.value.rest| < |s|
    decreases |s|, 1
  {
    if StartsWith(s, QUOTE) then
      match Body(s[1..])
      case None => None
      case Some(p) => Some(Parsed(Str(p.value), p.rest))
    else if StartsWith(s, OPEN_BRACKET) then
      var t := Skip(s[1..]);
      if StartsWith(t, CLOSE_BRACKET) then Some(Parsed(Array([]), t[1..]))
      else
        match Items(t)
        case None => None
        case Some(p) => Some(Parsed(Array(p.value), p.rest))
    else if StartsWith(s, OPEN_BRACE) then
      var t := Skip(s[1..]);
      if StartsWith(t, CLOSE_BRACE) then Some(Parsed(Object([]), t[1..]))
      else
        match Members(t)
        case None => None
        case Some(p) => Some(Parsed(Object(Dict(p.value)), p.rest))
    else Scalar(s)
  }

  /** Array elements up to and including the closing bracket. */
  function Items(s: Text): (r: Option<Parsed<seq<Json>>>)
    ensures r.Some? ==> |r.value.rest| < |s|
    decreases |s|, 2
  {
    match Value(s)
    case None => None
    case Some(v) =>
      var t := Skip(v.rest);
      if StartsWith(t, CLOSE_BRACKET) then Some(Parsed([v.value], t[1..]))
      else if !StartsWith(t, COMMA) then None
      else
        match Items(Skip(t[1..]))
        case None => None
        case Some(more) => Some(Parsed([v.value] + more.value, more.rest))
  }

  /** One key with its value. */
  function Pair(s: Text): (r: Option<Parsed<Member>>)
    ensures r.Some? ==> |r.value.rest| < |s|
    decreases |s|, 2
  {
    if !StartsWith(s, QUOTE) then None
    else
      match Body(s[1..])
      case None => None
      case Some(k) =>
        var t := Skip(k.rest);
        if !StartsWith(t, COLON) then None
        else
          match Value(Skip(t[1..]))
          case None => None
          case Some(v) => Some(Parsed(Member(k.value, v.value), v.rest))
  }

  /** Object members up to and including the closing brace. */
  function Members(s: Text): (r: Option<Parsed<seq<Member>>>)
    ensures r.Some? ==> |r.value.rest| < |s|
    decreases |s|, 3
  {
    match Pair(s)
    case None => None
    case Some(m) =>
      var t := Skip(m.rest);
      if StartsWith(t, CLOSE_BRACE) then Some(Parsed([m.value], t[1..]))
      else if !StartsWith(t, COMMA) then None
      else
        match Members(Skip(t[1..]))
        case None => None
        case Some(more) => Some(Parsed([m.value] + more.value, more.rest))
  }

  // ----- the dict that a list of pairs builds ------------------------------------------------

  predicate DistinctKeys(members: seq<Member>) {
    forall i, j | 0 <= i < j < |members| :: members[i].key != members[j].key
  }

  lemma {:induction false} PutFresh(members: seq<Member>, m: Member)
    requires forall i | 0 <= i < |members| :: members[i].key != m.key
    ensures Put(members, m) == members + [m]
  {
    if members != [] { PutFresh(members[1..], m); }
  }

  lemma {:induction false} DictOfDistinct(members: seq<Member>)
    requires DistinctKeys(members)
    ensures Dict(members) == members
  {
    if members != [] {
      var n := |members| - 1;
      DictOfDistinct(members[..n]);
      PutFresh(members[..n], members[n]);
      assert members[..n] + [members[n]] == members;
    }
  }

  function KeysOf(members: seq<Member>): (keys: seq<Text>)
    ensures |keys| == |members|
  {
    seq(|members|, i requires 0 <= i < |members| => members[i].key)
  }

  /** A new key goes to the end, and a known one stays where it is. */
  lemma {:induction false} PutKeepsOrder(members: seq<Member>, m: Member)
    ensures KeysOf(Put(members, m)) == if m.key in KeysOf(members) then KeysOf(members) else KeysOf(members) + [m.key]
  {
    if members == [] {
      assert KeysOf([m]) == [m.key];
    } else if members[0].key == m.key {
      assert KeysOf(members)[0] == m.key;
      assert KeysOf([m] + members[1..]) == KeysOf(members);
    } else {
      PutKeepsOrder(members[1..], m);
      KeysOfCons(members[0], members[1..]);
      KeysOfCons(members[0], Put(members[1..], m));
      assert members == [members[0]] + members[1..];
    }
  }

  lemma KeysOfCons(m: Member, more: seq<Member>)
    ensures KeysOf([m] + more) == [m.key] + KeysOf(more)
  {
  }

  lemma PutKeepsDistinct(members: seq<Member>, m: Member)
    requires DistinctKeys(members)
    ensures DistinctKeys(Put(members, m))
  {
    PutKeepsOrder(members, m);
    var keys, r := KeysOf(members), Put(members, m);
    forall i, j | 0 <= i < j < |r| ensures r[i].key != r[j].key {
      assert r[i].key == KeysOf(r)[i] && r[j].key == KeysOf(r)[j];
      if j == |keys| { assert keys[i] in keys; }
    }
  }

  /** The new value is there, and every other key has the value it had. */
  lemma {:induction false} PutKeepsOthers(members: seq<Member>, m: Member)
    ensures m in Put(members, m)
    ensures forall x | x in members && x.key != m.key :: x in Put(members, m)
  {
    if members != [] {
      assert members == [members[0]] + members[1..];
      if members[0].key != m.key { PutKeepsOthers(members[1..], m); }
    }
  }

  lemma {:induction false} DictIsDistinct(pairs: seq<Member>)
    ensures DistinctKeys(Dict(pairs))
  {
    if pairs != [] {
      DictIsDistinct(pairs[..|pairs| - 1]);
      PutKeepsDistinct(Dict(pairs[..|pairs| - 1]), pairs[|pairs| - 1]);
    }
  }

  /** Each key is there once, with the value it had last. */
  lemma {:induction false} DictKeepsLastValues(pairs: seq<Member>, i: nat)
    requires i < |pairs| && forall j | i < j < |pairs| :: pairs[j].key != pairs[i].key
    ensures DistinctKeys(Dict(pairs)) && pairs[i] in Dict(pairs)
  {
    var n := |pairs| - 1;
    DictIsDistinct(pairs);
    PutKeepsOthers(Dict(pairs[..n]), pairs[n]);
    if i < n { DictKeepsLastValues(pairs[..n], i); }
  }

  /** The keys are in the order in which they first came. */
  lemma DictKeepsOrder(pairs: seq<Member>, m: Member)
    ensures var keys := KeysOf(Dict(pairs));
      KeysOf(Dict(pairs + [m])) == if m.key in keys then keys else keys + [m.key]
  {
    assert (pairs + [m])[..|pairs|] == pairs;
    PutKeepsOrder(Dict(pairs), m);
  }
}
