/** What passes between a connector and the platform: secret-named keys are stripped from every
    response, and the connection name of every request is forced. */
module Enforcement {
  import opened Orders
  import LlmUtils

  // ----- key names ------------------------------------------------------------------

  predicate Plain(c: char) {
    'a' <= c <= 'z' || '0' <= c <= '9'
  }

  /** What is left of one character after Python's `lower` and the deletion of everything that is
      not a lower-case ASCII letter or a digit. Two characters outside ASCII lower to text that
      begins with an ASCII letter: the Kelvin sign, and the capital I with a dot above. */
  function Normal(c: char): (r: string)
    ensures forall i | 0 <= i < |r| :: Plain(r[i])
  {
    if Plain(c) then [c]
    else if 'A' <= c <= 'Z' then [(c as int + 32) as char]
    else if c == '\U{212A}' then "k"
    else if c == '\U{0130}' then "i"
    else ""
  }

  function NormalizeKey(key: string): (r: string)
    ensures forall i | 0 <= i < |r| :: Plain(r[i])
  {
    if key == "" then "" else Normal(key[0]) + NormalizeKey(key[1..])
  }

  lemma {:induction false} PlainKeysAreNormal(key: string)
    requires forall i | 0 <= i < |key| :: Plain(key[i])
    ensures NormalizeKey(key) == key
  {
    if key != "" {
      PlainKeysAreNormal(key[1..]);
      assert key == [key[0]] + key[1..];
    }
  }

  /** Normalizing a normal form changes nothing. */
  lemma NormalizingTwiceIsOnce(key: string)
    ensures NormalizeKey(NormalizeKey(key)) == NormalizeKey(key)
  {
    PlainKeysAreNormal(NormalizeKey(key));
  }

  lemma {:induction false} NormalOfJoined(a: string, b: string)
    ensures NormalizeKey(a + b) == NormalizeKey(a) + NormalizeKey(b)
  {
    if a == "" {
      assert a + b == b;
    } else {
      assert (a + b)[1..] == a[1..] + b;
      NormalOfJoined(a[1..], b);
    }
  }

  /** The case of a letter does not matter. */
  lemma CaseDoesNotMatter(a: string, c: char, b: string)
    requires 65 <= c as int <= 90
    ensures NormalizeKey(a + [c] + b) == NormalizeKey(a + [(c as int + 32) as char] + b)
  {
    var l := (c as int + 32) as char;
    NormalOfJoined(a + [c], b);
    NormalOfJoined(a, [c]);
    NormalOfJoined(a + [l], b);
    NormalOfJoined(a, [l]);
    assert [c][1..] == [] && [l][1..] == [];
  }

  /** Separators between the parts of a key, or any other character that is no ASCII letter or
      digit and does not lower to one, do not matter. */
  lemma SeparatorsDoNotMatter(a: string, c: char, b: string)
    requires c as int < 48 || 57 < c as int < 65 || 90 < c as int < 97
             || (122 < c as int && c != '\U{212A}' && c != '\U{0130}')
    ensures NormalizeKey(a + [c] + b) == NormalizeKey(a + b)
  {
    NormalOfSeparator(c);
    MiddleMayBeDropped(a, [c], b);
  }

  lemma MiddleMayBeDropped(a: string, m: string, b: string)
    requires NormalizeKey(m) == ""
    ensures NormalizeKey(a + m + b) == NormalizeKey(a + b)
  {
    NormalOfJoined(a + m, b);
    NormalOfJoined(a, m);
    NormalOfJoined(a, b);
  }

  lemma NormalOfSeparator(c: char)
    requires c as int < 48 || 57 < c as int < 65 || 90 < c as int < 97
             || (122 < c as int && c != '\U{212A}' && c != '\U{0130}')
    ensures NormalizeKey([c]) == ""
  {
    assert Normal(c) == "";
    assert [c][1..] == [];
  }

  const SECRET_KEYS: set<string> := {
    "accesstoken", "refreshtoken", "idtoken", "sessiontoken", "clientsecret", "apikey", "authorization",
    "password", "token", "secret", "bearer", "credential", "privatekey"}

  predicate Secret(key: string) {
    NormalizeKey(key) in SECRET_KEYS
  }

  /** Keys that are spelled alike, in the sense of the two lemmas above, are secret alike. */
  lemma SpellingsAreSecretAlike(a: string, b: string)
    requires NormalizeKey(a) == NormalizeKey(b)
    ensures Secret(a) <==> Secret(b)
  {
  }

  /** Of the keys in lower-case letters and digits just these are secret. */
  lemma SecretNames(key: string)
    requires forall i | 0 <= i < |key| :: 97 <= key[i] as int <= 122 || 48 <= key[i] as int <= 57
    ensures Secret(key) <==> key in [
      "accesstoken", "refreshtoken", "idtoken", "sessiontoken", "clientsecret", "apikey", "authorization",
      "password", "token", "secret", "bearer", "credential", "privatekey"]
  {
    PlainKeysAreNormal(key);
  }

  // ----- values -----------------------------------------------------------------------

  /** A dict keeps its entries in insertion order. */
  datatype Value = Leaf(text: string) | List(items: seq<Value>) | Dict(entries: seq<Entry>)
  datatype Entry = Entry(key: string, value: Value)

  function StripSecrets(v: Value): Value
    decreases v, 1
  {
    match v
    case Leaf(_) => v
    case List(items) => List(StripItems(items))
    case Dict(entries) => Dict(StripEntries(entries))
  }

  function StripItems(items: seq<Value>): (r: seq<Value>)
    ensures |r| == |items|
    decreases items, 0
  {
    if items == [] then [] else [StripSecrets(items[0])] + StripItems(items[1..])
  }

  function StripEntries(entries: seq<Entry>): seq<Entry>
    decreases entries, 0
  {
    if entries == [] then []
    else if Secret(entries[0].key) then StripEntries(entries[1..])
    else [Entry(entries[0].key, StripSecrets(entries[0].value))] + StripEntries(entries[1..])
  }

  /** No dict at any depth has a secret key. */
  predicate Clean(v: Value)
    decreases v
  {
    match v
    case Leaf(_) => true
    case List(items) => forall i | 0 <= i < |items| :: Clean(items[i])
    case Dict(entries) => forall e | e in entries :: CleanEntry(e)
  }

  predicate CleanEntry(e: Entry)
    decreases e
  {
    !Secret(e.key) && Clean(e.value)
  }

  lemma {:induction false} StrippedIsClean(v: Value)
    ensures Clean(StripSecrets(v))
    decreases v, 1
  {
    match v
    case Leaf(_) =>
    case List(items) => StrippedItemsAreClean(items);
    case Dict(entries) => StrippedEntriesAreClean(entries);
  }

  lemma {:induction false} StrippedItemsAreClean(items: seq<Value>)
    ensures forall i | 0 <= i < |items| :: Clean(StripItems(items)[i])
    decreases items, 0
  {
    if items != [] {
      StrippedIsClean(items[0]);
      StrippedItemsAreClean(items[1..]);
    }
  }

  lemma {:induction false} StrippedEntriesAreClean(entries: seq<Entry>)
    ensures forall e | e in StripEntries(entries) :: CleanEntry(e)
    decreases entries, 0
  {
    if entries != [] {
      StrippedIsClean(entries[0].value);
      StrippedEntriesAreClean(entries[1..]);
    }
  }

  /** A value is clean exactly when stripping leaves it as it is. */
  lemma {:induction false} CleanIffUnchanged(v: Value)
    ensures Clean(v) <==> StripSecrets(v) == v
    decreases v, 1
  {
    StrippedIsClean(v);
    if Clean(v) {
      match v
      case Leaf(_) =>
      case List(items) => CleanItemsUnchanged(items);
      case Dict(entries) => CleanEntriesUnchanged(entries);
    }
  }

  lemma {:induction false} CleanItemsUnchanged(items: seq<Value>)
    requires forall i | 0 <= i < |items| :: Clean(items[i])
    ensures StripItems(items) == items
    decreases items, 0
  {
    if items != [] {
      CleanIffUnchanged(items[0]);
      CleanItemsUnchanged(items[1..]);
      assert items == [items[0]] + items[1..];
    }
  }

  lemma {:induction false} CleanEntriesUnchanged(entries: seq<Entry>)
    requires forall e | e in entries :: CleanEntry(e)
    ensures StripEntries(entries) == entries
    decreases entries, 0
  {
    if entries != [] {
      assert CleanEntry(entries[0]);
      CleanIffUnchanged(entries[0].value);
      assert forall e | e in entries[1..] :: e in entries;
      CleanEntriesUnchanged(entries[1..]);
      assert entries == [entries[0]] + entries[1..];
    }
  }

  lemma StrippingTwiceIsOnce(v: Value)
    ensures StripSecrets(StripSecrets(v)) == StripSecrets(v)
  {
    StrippedIsClean(v);
    CleanIffUnchanged(StripSecrets(v));
  }

  // ----- nothing else is lost or added --------------------------------------------------

  /** A way down into a value: through the i-th item of a list or the entry of a key. */
  datatype Hop = Item(i: nat) | Key(key: string)

  function LookUp(entries: seq<Entry>, key: string): (r: Option<Value>)
    ensures r.Some? ==> exists i :: 0 <= i < |entries| && entries[i] == Entry(key, r.value)
    ensures r.None? ==> forall i | 0 <= i < |entries| :: entries[i].key != key
  {
    if entries == [] then None
    else if entries[0].key == key then Some(entries[0].value)
    else
      var r := LookUp(entries[1..], key);
      assert r.Some? ==> exists i :: 0 <= i < |entries[1..]| && entries[1..][i] == entries[i + 1] == Entry(key, r.value);
      r
  }

  /** What stands at the end of a path, if anything does. */
  function At(v: Value, path: seq<Hop>): Option<Value>
    decreases path
  {
    if path == [] then Some(v)
    else
      match (v, path[0])
      case (List(items), Item(i)) => if i < |items| then At(items[i], path[1..]) else None
      case (Dict(entries), Key(k)) =>
        (match LookUp(entries, k) case None => None case Some(w) => At(w, path[1..]))
      case _ => None
  }

  predicate Hidden(path: seq<Hop>) {
    exists i | 0 <= i < |path| :: path[i].Key? && Secret(path[i].key)
  }

  lemma {:induction false} LookUpStripped(entries: seq<Entry>, key: string)
    ensures LookUp(StripEntries(entries), key) ==
      if Secret(key) then None
      else match LookUp(entries, key) case None => None case Some(v) => Some(StripSecrets(v))
  {
    if entries != [] {
      LookUpStripped(entries[1..], key);
      var rest := StripEntries(entries[1..]);
      if !Secret(entries[0].key) {
        var head := Entry(entries[0].key, StripSecrets(entries[0].value));
        assert StripEntries(entries) == [head] + rest && ([head] + rest)[1..] == rest;
      }
    }
  }

  lemma {:induction false} ItemStripped(items: seq<Value>, i: nat)
    requires i < |items|
    ensures StripItems(items)[i] == StripSecrets(items[i])
  {
    if i > 0 { ItemStripped(items[1..], i - 1); }
  }

  /** Every path free of secret keys leads to what it led to, stripped; every other leads nowhere. */
  lemma {:induction false} PathsAreKept(v: Value, path: seq<Hop>)
    ensures At(StripSecrets(v), path) ==
      if Hidden(path) then None
      else match At(v, path) case None => None case Some(w) => Some(StripSecrets(w))
    decreases path
  {
    if path != [] {
      var rest := path[1..];
      assert Hidden(path) <==> (path[0].Key? && Secret(path[0].key)) || Hidden(rest) by {
        assert forall i | 0 < i < |path| :: path[i] == rest[i - 1];
        assert forall i | 0 <= i < |rest| :: rest[i] == path[i + 1];
      }
      match (v, path[0])
      case (List(items), Item(i)) =>
        if i < |items| {
          ItemStripped(items, i);
          PathsAreKept(items[i], rest);
        }
      case (Dict(entries), Key(k)) =>
        LookUpStripped(entries, k);
        var found := LookUp(entries, k);
        if found.Some? { PathsAreKept(found.value, rest); }
      case _ =>
    }
  }

  function KeysOf(entries: seq<Entry>): seq<string> {
    seq(|entries|, i requires 0 <= i < |entries| => entries[i].key)
  }

  function Visible(keys: seq<string>): seq<string> {
    if keys == [] then [] else (if Secret(keys[0]) then [] else [keys[0]]) + Visible(keys[1..])
  }

  /** The keys that stay, stay in order. */
  lemma {:induction false} OrderIsKept(entries: seq<Entry>)
    ensures KeysOf(StripEntries(entries)) == Visible(KeysOf(entries))
  {
    if entries != [] {
      OrderIsKept(entries[1..]);
      assert KeysOf(entries)[1..] == KeysOf(entries[1..]);
      if !Secret(entries[0].key) {
        var r := StripEntries(entries);
        assert KeysOf(r) == [entries[0].key] + KeysOf(StripEntries(entries[1..]));
      }
    }
  }

  // ----- the forced connection ------------------------------------------------------------

  const CONNECTION_NAME := "connectionName"

  function SetKey(entries: seq<Entry>, key: string, v: Value): seq<Entry> {
    if entries == [] then [Entry(key, v)]
    else if entries[0].key == key then [Entry(key, v)] + entries[1..]
    else [entries[0]] + SetKey(entries[1..], key, v)
  }

  lemma {:induction false} SetKeySets(entries: seq<Entry>, key: string, v: Value, other: string)
    ensures LookUp(SetKey(entries, key, v), other) == if other == key then Some(v) else LookUp(entries, other)
  {
    if entries != [] {
      SetKeySets(entries[1..], key, v, other);
      assert ([entries[0]] + SetKey(entries[1..], key, v))[1..] == SetKey(entries[1..], key, v);
      assert ([Entry(key, v)] + entries[1..])[1..] == entries[1..];
    }
  }

  predicate BlankText(s: string) {
    forall i | 0 <= i < |s| :: LlmUtils.Space(s[i] as int)
  }

  /** Whatever the arguments name, the forced connection is the one that is named; a blank one is
      refused. */
  method ForceConnectionName(args: seq<Entry>, forced: string) returns (r: Option<seq<Entry>>)
    ensures r.None? <==> BlankText(forced)
    ensures (forall i | 0 <= i < |forced| :: forced[i] in " \t\r\n") ==> r.None?
    ensures (exists i :: 0 <= i < |forced| && 33 <= forced[i] as int <= 126) ==> r.Some?
    ensures r.Some? ==> forall key ::
      LookUp(r.value, key) == if key == "connectionName" then Some(Leaf(forced)) else LookUp(args, key)
  {
    if BlankText(forced) { return None; }
    forall key ensures LookUp(SetKey(args, CONNECTION_NAME, Leaf(forced)), key)
      == if key == CONNECTION_NAME then Some(Leaf(forced)) else LookUp(args, key)
    {
      SetKeySets(args, CONNECTION_NAME, Leaf(forced), key);
    }
    r := Some(SetKey(args, CONNECTION_NAME, Leaf(forced)));
  }
}
