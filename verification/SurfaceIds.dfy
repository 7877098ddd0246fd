/** Repairing surface ids whose prefix was written twice: a delete, then an update of a primary
    key, both by one regular expression with a back-reference. */
module SurfaceIds {
  predicate Word(c: char) {
    'a' <= c <= 'z' || 'A' <= c <= 'Z' || '0' <= c <= '9' || c == '_'
  }

  /** s begins with one word of length k, an underscore, the same word, and an underscore. */
  predicate Doubled(s: string, k: nat) {
    && 1 <= k && 2 * k + 2 <= |s| && s[k] == '_' && s[2 * k + 1] == '_'
    && s[..k] == s[k + 1..2 * k + 1] && forall i | 0 <= i < k :: Word(s[i])
  }

  ghost predicate Matches(s: string) {
    exists k :: Doubled(s, k)
  }

  /** Letters of either case, digits and the underscore, by their ASCII codes. */
  predicate PlainWord(w: string) {
    w != "" && forall i | 0 <= i < |w| ::
      var c := w[i] as int; 97 <= c <= 122 || 65 <= c <= 90 || 48 <= c <= 57 || c == 95
  }

  /** The pattern matches what begins with one such word twice, each time before an underscore. */
  lemma DoubledIffWordTwice(s: string, k: nat)
    ensures Doubled(s, k) <==> exists w, rest :: PlainWord(w) && |w| == k && s == w + "_" + w + "_" + rest
  {
    if Doubled(s, k) {
      var w, rest := s[..k], s[2 * k + 2..];
      assert s == s[..k] + [s[k]] + s[k + 1..2 * k + 1] + [s[2 * k + 1]] + rest;
      assert s == w + "_" + w + "_" + rest && PlainWord(w);
    }
    if w, rest :| PlainWord(w) && |w| == k && s == w + "_" + w + "_" + rest {
      assert s[..k] == w && s[k + 1..2 * k + 1] == w;
      assert forall i | 0 <= i < k :: s[i] == w[i];
    }
  }

  /** The greedy match: the longest word of at most n characters that is doubled; 0 if none is. */
  function LongestUpTo(s: string, n: nat): (k: nat)
    ensures k > 0 ==> Doubled(s, k)
    ensures k <= n && forall j | k < j <= n :: !Doubled(s, j)
  {
    if n == 0 then 0 else if Doubled(s, n) then n else LongestUpTo(s, n - 1)
  }

  function Longest(s: string): (k: nat)
    ensures k > 0 <==> Matches(s)
    ensures k > 0 ==> Doubled(s, k)
    ensures forall j: nat | Doubled(s, j) :: j <= k
  {
    LongestUpTo(s, |s|)
  }

  /** What `regexp_replace` makes of s: the doubled word once. */
  function Repair(s: string): string {
    if Longest(s) == 0 then s else s[..Longest(s) + 1] + s[2 * Longest(s) + 2..]
  }

  lemma OneCopyIsTheOther(s: string, k: nat)
    requires Doubled(s, k)
    ensures s[..k + 1] + s[2 * k + 2..] == s[k + 1..]
  {
    var first, second := s[..k + 1], s[k + 1..2 * k + 2];
    assert first == s[..k] + ['_'];
    assert second == s[k + 1..2 * k + 1] + ['_'];
    assert s[k + 1..] == second + s[2 * k + 2..];
  }

  lemma RepairDropsAWord(s: string)
    ensures Matches(s) ==> Repair(s) == s[Longest(s) + 1..] && |Repair(s)| < |s|
    ensures !Matches(s) ==> Repair(s) == s
  {
    if Matches(s) { OneCopyIsTheOther(s, Longest(s)); }
  }

  /** The repair keeps the longest word that is doubled once, and what comes after it. */
  lemma RepairIsGreedy(s: string, w: string, rest: string)
    requires PlainWord(w) && s == w + "_" + w + "_" + rest
    requires forall v, r | PlainWord(v) && s == v + "_" + v + "_" + r :: |v| <= |w|
    ensures Repair(s) == w + "_" + rest
  {
    DoubledIffWordTwice(s, |w|);
    DoubledIffWordTwice(s, Longest(s));
    var v, r :| PlainWord(v) && |v| == Longest(s) && s == v + "_" + v + "_" + r;
    assert Longest(s) == |w|;
    assert s[..|w| + 1] == w + "_" && s[2 * |w| + 2..] == rest;
  }

  /** Any other id stays as it is. */
  lemma OthersAreNotRepaired(s: string)
    requires forall w, rest | PlainWord(w) :: s != w + "_" + w + "_" + rest
    ensures Repair(s) == s
  {
    if Longest(s) > 0 { DoubledIffWordTwice(s, Longest(s)); }
  }

  /** Repeating the repair comes to an end. */
  function Repaired(s: string): (r: string)
    ensures !Matches(r)
    decreases |s|
  {
    if Longest(s) == 0 then s
    else
      RepairDropsAWord(s);
      Repaired(Repair(s))
  }

  // ----- the migration on a set of ids -----------------------------------------------

  datatype SurfaceId = SurfaceId(text: string)

  ghost predicate Bad(x: SurfaceId) {
    Matches(x.text)
  }

  function Fixed(x: SurfaceId): SurfaceId {
    SurfaceId(Repair(x.text))
  }

  /** The delete's condition: malformed, and the corrected id is there already. */
  predicate Redundant(ids: set<SurfaceId>, x: SurfaceId) {
    Longest(x.text) > 0 && Fixed(x) in ids
  }

  function Undeleted(ids: set<SurfaceId>): set<SurfaceId> {
    set x | x in ids && !Redundant(ids, x)
  }

  function Image(ids: set<SurfaceId>): set<SurfaceId> {
    set x | x in ids :: Fixed(x)
  }

  /** No two ids become one. */
  predicate Injective(ids: set<SurfaceId>) {
    forall x, y | x in ids && y in ids && Fixed(x) == Fixed(y) :: x == y
  }

  type Rows = map<SurfaceId, string>

  /** The rows that are left by the delete, under their corrected ids. */
  ghost predicate Migrated(rows: Rows, after: Rows) {
    && after.Keys == Image(Undeleted(rows.Keys))
    && forall x {:trigger x in Undeleted(rows.Keys)} | x in Undeleted(rows.Keys) :: after[Fixed(x)] == rows[x]
  }

  /** How a run of the migration ends: a clash of primary keys rolls everything back. */
  ghost predicate Ran(rows: Rows, ok: bool, after: Rows) {
    && (ok <==> Injective(Undeleted(rows.Keys)))
    && if ok then Migrated(rows, after) else after == rows
  }

  class SurfaceTable {
    var rows: Rows

    constructor (rows: Rows)
      ensures this.rows == rows
    {
      this.rows := rows;
    }

    /** The delete, then the update; a clash of primary keys rolls both back. */
    method Upgrade() returns (ok: bool)
      modifies this
      ensures Ran(old(rows), ok, rows)
    {
      var kept := Undeleted(rows.Keys);
      var after: Rows := map[];
      var done: set<SurfaceId> := {};
      while done != kept
        invariant done <= kept && kept <= rows.Keys && rows == old(rows) && kept == Undeleted(rows.Keys)
        invariant PartlyMigrated(rows, done, after)
        decreases kept - done
      {
        assert kept - done != {};
        var x :| x in kept - done;
        if Fixed(x) in after {
          ghost var y :| y in done && Fixed(y) == Fixed(x);
          assert x in kept && y in kept && x != y;
          return false;
        }
        MigrateOneMore(rows, done, after, x);
        after := after[Fixed(x) := rows[x]];
        done := done + {x};
      }
      rows := after;
      ok := true;
    }
  }

  /** The update, after some of the rows. */
  ghost predicate PartlyMigrated(rows: Rows, done: set<SurfaceId>, after: Rows) {
    && done <= rows.Keys && after.Keys == Image(done) && Injective(done)
    && forall x | x in done :: after[Fixed(x)] == rows[x]
  }

  lemma MigrateOneMore(rows: Rows, done: set<SurfaceId>, after: Rows, x: SurfaceId)
    requires PartlyMigrated(rows, done, after) && x in rows && x !in done && Fixed(x) !in after
    ensures PartlyMigrated(rows, done + {x}, after[Fixed(x) := rows[x]])
  {
    ImageOfMore(done, x);
    forall y | y in done ensures Fixed(y) != Fixed(x) { assert Fixed(y) in Image(done); }
  }

  lemma ImageOfMore(ids: set<SurfaceId>, x: SurfaceId)
    ensures Image(ids + {x}) == Image(ids) + {Fixed(x)}
  {
  }

  /** No repair leaves something to repair. */
  ghost predicate Flat(ids: set<SurfaceId>) {
    forall x | x in ids :: !Bad(Fixed(x))
  }

  /** What the migration promises: the new ids are the old ones repaired, none is malformed. */
  ghost predicate KeepsPromise(ids: set<SurfaceId>, after: set<SurfaceId>) {
    after == Image(ids) && forall x | x in after :: !Bad(x)
  }

  lemma FixedOfGood(x: SurfaceId)
    requires !Bad(x)
    ensures Fixed(x) == x
  {
    RepairDropsAWord(x.text);
  }

  /** An id that is there before the migration and after it is well-formed. */
  lemma StayersAreGood(ids: set<SurfaceId>, y: SurfaceId)
    requires y in ids && y in Image(Undeleted(ids))
    ensures !Bad(y)
  {
    var z :| z in Undeleted(ids) && Fixed(z) == y;
    if !Bad(z) { FixedOfGood(z); }
  }

  /** No repaired id is missing exactly when what the deleted rows repair to is well-formed. */
  lemma ImageKeptIffDeletedAreFlat(ids: set<SurfaceId>)
    ensures Image(Undeleted(ids)) == Image(ids) <==> Flat(ids - Undeleted(ids))
  {
    forall x | x in ids ensures Fixed(x) in Image(Undeleted(ids)) <==> (x in Undeleted(ids) || !Bad(Fixed(x))) {
      RepairIsThereIff(ids, x);
    }
    assert Image(Undeleted(ids)) <= Image(ids);
    if Image(Undeleted(ids)) == Image(ids) {
      forall x | x in ids - Undeleted(ids) ensures !Bad(Fixed(x)) { assert Fixed(x) in Image(ids); }
    }
  }

  /** A repaired id is there afterwards unless its row was deleted in favour of one that is itself
      malformed. */
  lemma RepairIsThereIff(ids: set<SurfaceId>, x: SurfaceId)
    requires x in ids
    ensures Fixed(x) in Image(Undeleted(ids)) <==> x in Undeleted(ids) || !Bad(Fixed(x))
  {
    if x !in Undeleted(ids) {
      if Fixed(x) in Image(Undeleted(ids)) { StayersAreGood(ids, Fixed(x)); }
      if !Bad(Fixed(x)) {
        FixedOfGood(Fixed(x));
        assert Fixed(x) in Undeleted(ids);
      }
    }
  }

  /** In particular the whole promise is kept exactly when every repair is flat. */
  lemma PromiseIffFlat(ids: set<SurfaceId>)
    ensures KeepsPromise(ids, Image(Undeleted(ids))) <==> Flat(ids)
  {
    ImageKeptIffDeletedAreFlat(ids);
    if KeepsPromise(ids, Image(Undeleted(ids))) {
      forall x | x in ids ensures !Bad(Fixed(x)) { assert Fixed(x) in Image(ids); }
    }
  }

  lemma GoodIdsAreInjective(ids: set<SurfaceId>)
    requires forall x | x in ids :: !Bad(x)
    ensures Injective(Undeleted(ids))
  {
    forall x | x in ids ensures Fixed(x) == x { FixedOfGood(x); }
  }

  /** Well-formed ids are all left alone. */
  lemma GoodIdsStay(rows: Rows, again: Rows)
    requires (forall x | x in rows :: !Bad(x)) && Migrated(rows, again)
    ensures again == rows
  {
    forall x | x in rows ensures Fixed(x) == x && x in Undeleted(rows.Keys) { FixedOfGood(x); }
    assert again.Keys == rows.Keys;
    forall x | x in rows ensures again[x] == rows[x] { assert again[Fixed(x)] == rows[x]; }
  }

  /** After a first run, running the migration again goes through and changes nothing exactly when
      no row that the first run kept is left with something to repair. Otherwise it changes the
      table or fails on a clash. */
  lemma SecondRunIdleIffFlat(rows: Rows, after: Rows, ok: bool, again: Rows)
    requires Migrated(rows, after) && Ran(after, ok, again)
    ensures ok && again == after <==> Flat(Undeleted(rows.Keys))
  {
    if Flat(Undeleted(rows.Keys)) {
      GoodIdsAreInjective(after.Keys);
      GoodIdsStay(after, again);
    } else {
      var x :| x in Undeleted(rows.Keys) && Bad(Fixed(x));
      assert Fixed(x) in after;
      if ok && again == after { StayersAreGood(after.Keys, Fixed(x)); }
    }
  }

  /** A row that refers to a surface by id, and is repaired alike, still refers to one, unless the
      surface was deleted in favour of a malformed one. */
  lemma ReferencesFollowIff(rows: Rows, after: Rows, reference: SurfaceId)
    requires Migrated(rows, after) && reference in rows
    ensures Fixed(reference) in after <==> reference in Undeleted(rows.Keys) || !Bad(Fixed(reference))
  {
    RepairIsThereIff(rows.Keys, reference);
  }

  // ----- ids with at most two underscores ------------------------------------------------

  function Underscores(s: string): nat {
    if s == "" then 0 else (if s[0] == '_' then 1 else 0) + Underscores(s[1..])
  }

  lemma {:induction false} UnderscoresAppend(s: string, t: string)
    ensures Underscores(s + t) == Underscores(s) + Underscores(t)
  {
    if s == "" {
      assert s + t == t;
    } else {
      assert (s + t)[1..] == s[1..] + t;
      UnderscoresAppend(s[1..], t);
    }
  }

  lemma {:induction false} NoUnderscore(s: string)
    requires Underscores(s) == 0
    ensures forall i | 0 <= i < |s| :: s[i] != '_'
  {
    if s != "" { NoUnderscore(s[1..]); }
  }

  /** How a doubled id is put together. */
  lemma Parts(s: string, k: nat)
    requires Doubled(s, k)
    ensures s == s[..k] + "_" + (s[..k] + "_" + s[2 * k + 2..])
    ensures Underscores(s) == 2 * Underscores(s[..k]) + 2 + Underscores(s[2 * k + 2..])
  {
    var w, rest := s[..k], s[2 * k + 2..];
    assert s == s[..k] + [s[k]] + (s[k + 1..2 * k + 1] + [s[2 * k + 1]] + rest);
    UnderscoresAppend(w, "_");
    UnderscoresAppend(w + "_", rest);
    UnderscoresAppend(w + "_", w + "_" + rest);
    assert Underscores("_") == 1 + Underscores("_"[1..]);
  }

  ghost predicate AtMostTwo(ids: set<SurfaceId>) {
    forall x | x in ids :: Underscores(x.text) <= 2
  }

  /** Such an id is a plain word twice, and then something plain. */
  lemma PlainParts(s: string) returns (w: string, rest: string)
    requires Underscores(s) <= 2 && Matches(s)
    ensures Underscores(w) == 0 && Underscores(rest) == 0
    ensures Repair(s) == w + "_" + rest && s == w + "_" + (w + "_" + rest)
  {
    var k := Longest(s);
    w, rest := s[..k], s[2 * k + 2..];
    Parts(s, k);
    WordAndUnderscore(s, k);
  }

  lemma WordAndUnderscore(s: string, k: nat)
    requires k < |s| && s[k] == '_'
    ensures s[..k + 1] == s[..k] + "_"
  {
  }

  lemma OneUnderscore(w: string, rest: string)
    requires Underscores(w) == 0 && Underscores(rest) == 0
    ensures Underscores(w + "_" + rest) == 1
  {
    UnderscoresAppend(w, "_");
    UnderscoresAppend(w + "_", rest);
    assert Underscores("_") == 1 + Underscores("_"[1..]);
  }

  lemma MatchesNeedTwo(s: string)
    requires Matches(s)
    ensures Underscores(s) >= 2
  {
    var k :| Doubled(s, k);
    Parts(s, k);
  }

  lemma ShortRepairIsFlat(s: string)
    requires Underscores(s) <= 2
    ensures !Matches(Repair(s))
  {
    RepairDropsAWord(s);
    if Matches(s) {
      var w, rest := PlainParts(s);
      OneUnderscore(w, rest);
      if Matches(Repair(s)) { MatchesNeedTwo(Repair(s)); }
    }
  }

  /** A plain word before the first underscore can be read off again. */
  lemma PlainSplit(v: string, r: string, w: string, t: string)
    requires Underscores(v) == 0 && Underscores(w) == 0 && v + "_" + r == w + "_" + t
    ensures v == w && r == t
  {
    NoUnderscore(v);
    NoUnderscore(w);
    var s := v + "_" + r;
    assert s[|v|] == '_' && s[|w|] == '_';
    assert v == s[..|v|] && w == s[..|w|] && r == s[|v| + 1..] && t == s[|w| + 1..];
  }

  lemma ShortRepairsDiffer(s: string, t: string)
    requires Underscores(s) <= 2 && Underscores(t) <= 2 && Matches(s) && Matches(t) && Repair(s) == Repair(t)
    ensures s == t
  {
    var v, r := PlainParts(s);
    var w, q := PlainParts(t);
    PlainSplit(v, r, w, q);
  }

  /** With at most two underscores an id the delete leaves alone is the only one of its repair. */
  lemma ShortIdsAreInjective(ids: set<SurfaceId>)
    requires AtMostTwo(ids)
    ensures Injective(Undeleted(ids))
  {
    forall x, y | x in Undeleted(ids) && y in Undeleted(ids) && Fixed(x) == Fixed(y) ensures x == y {
      if Bad(x) && Bad(y) {
        ShortRepairsDiffer(x.text, y.text);
      } else if Bad(x) {
        FixedOfGood(y);
      } else {
        FixedOfGood(x);
        if !Bad(y) { FixedOfGood(y); }
      }
    }
  }

  /** For such tables the migration always goes through and keeps its promise. */
  lemma ShortIdsMigrate(ids: set<SurfaceId>)
    requires AtMostTwo(ids)
    ensures Injective(Undeleted(ids)) && KeepsPromise(ids, Image(Undeleted(ids)))
  {
    ShortIdsAreInjective(ids);
    forall x | x in ids ensures !Bad(Fixed(x)) { ShortRepairIsFlat(x.text); }
    PromiseIffFlat(ids);
  }

  /** And running it again then goes through and changes nothing. */
  lemma ShortIdsMigrateOnce(rows: Rows, after: Rows, ok: bool, again: Rows)
    requires AtMostTwo(rows.Keys) && Migrated(rows, after) && Ran(after, ok, again)
    ensures ok && again == after
  {
    forall x | x in Undeleted(rows.Keys) ensures !Bad(Fixed(x)) { ShortRepairIsFlat(x.text); }
    SecondRunIdleIffFlat(rows, after, ok, again);
  }

  // ----- ids with more underscores -----------------------------------------------------

  lemma LongestIs(s: string, k: nat)
    requires Doubled(s, k) && forall j | k < j <= |s| :: !Doubled(s, j)
    ensures Longest(s) == k
  {
  }

  /** A word written three times is left doubled, so a second run would change it again. */
  lemma TripledIdStaysDoubled()
    ensures Repair("run_run_run_X") == "run_run_X" && Matches("run_run_X")
  {
    var s := "run_run_run_X";
    assert s[..3] == "run" && s[4..7] == "run";
    assert Doubled(s, 3);
    forall j | 3 < j <= |s| ensures !Doubled(s, j) { assert j == 4 || j == 5 || 2 * j + 2 > |s|; }
    LongestIs(s, 3);
    assert s[..4] == "run_" && s[8..] == "run_X";
    var t := "run_run_X";
    assert t[..3] == "run" && t[4..7] == "run";
    assert Doubled(t, 3);
  }

  /** The second run does change it: two runs over one such row. */
  lemma TripledIdIsRepairedTwice(content: string) returns (rows: Rows, after: Rows, again: Rows)
    ensures rows == map[SurfaceId("run_run_run_X") := content]
    ensures Ran(rows, true, after) && Ran(after, true, again) && again != after
  {
    TripledIdStaysDoubled();
    var x := SurfaceId("run_run_run_X");
    rows, after, again := map[x := content], map[Fixed(x) := content], map[Fixed(Fixed(x)) := content];
    LoneRowMigrates(x, content);
    LoneRowMigrates(Fixed(x), content);
    LoneRowMoves(Fixed(x), content);
  }

  lemma LoneRowMoves(x: SurfaceId, content: string)
    requires Bad(x)
    ensures map[Fixed(x) := content] != map[x := content]
  {
    RepairDropsAWord(x.text);
    assert x in map[x := content] && x !in map[Fixed(x) := content];
  }

  /** A run that deletes nothing and sees no clash. */
  lemma RunsThrough(rows: Rows, after: Rows)
    requires Undeleted(rows.Keys) == rows.Keys && Injective(rows.Keys)
    requires after.Keys == Image(rows.Keys) && forall x | x in rows :: after[Fixed(x)] == rows[x]
    ensures Ran(rows, true, after)
  {
  }

  lemma LoneRowMigrates(x: SurfaceId, content: string)
    requires Bad(x)
    ensures Ran(map[x := content], true, map[Fixed(x) := content])
  {
    RepairDropsAWord(x.text);
    var rows, after := map[x := content], map[Fixed(x) := content];
    assert rows.Keys == {x} && after.Keys == {Fixed(x)};
    assert Undeleted({x}) == {x};
    assert Image({x}) == {Fixed(x)};
    RunsThrough(rows, after);
  }

  /** How a repair is computed where the longest doubled word is known. */
  lemma RepairIs(s: string, k: nat)
    requires Doubled(s, k) && forall j | k < j <= |s| :: !Doubled(s, j)
    ensures Matches(s) && Repair(s) == s[k + 1..]
  {
    LongestIs(s, k);
    RepairDropsAWord(s);
  }

  lemma ThreeLetters()
    ensures Matches("a_a_a_X") && Repair("a_a_a_X") == "a_a_X"
  {
    var s := "a_a_a_X";
    assert s[..1] == "a" && s[2..3] == "a" && Doubled(s, 1);
    forall j | 1 < j <= |s| ensures !Doubled(s, j) { assert j == 2 || 2 * j + 2 > |s|; }
    RepairIs(s, 1);
  }

  lemma FourLetters()
    ensures Matches("a_a_a_a_X") && Repair("a_a_a_a_X") == "a_a_X"
  {
    var s := "a_a_a_a_X";
    assert s[..3] == "a_a" && s[4..7] == "a_a" && Doubled(s, 3);
    forall j | 3 < j <= |s| ensures !Doubled(s, j) { assert 2 * j + 2 > |s|; }
    RepairIs(s, 3);
  }

  lemma FiveLetters()
    ensures Matches("a_a_a_a_a_X") && Repair("a_a_a_a_a_X") == "a_a_a_X"
  {
    var s := "a_a_a_a_a_X";
    assert s[..3] == "a_a" && s[4..7] == "a_a" && Doubled(s, 3);
    forall j | 3 < j <= |s| ensures !Doubled(s, j) { assert j == 4 || 2 * j + 2 > |s|; }
    RepairIs(s, 3);
  }

  lemma SevenLetters()
    ensures Matches("a_a_a_a_a_a_a_X") && Repair("a_a_a_a_a_a_a_X") == "a_a_a_a_X"
  {
    var s := "a_a_a_a_a_a_a_X";
    assert s[..5] == "a_a_a" && s[6..11] == "a_a_a" && Doubled(s, 5);
    forall j | 5 < j <= |s| ensures !Doubled(s, j) { assert j == 6 || 2 * j + 2 > |s|; }
    RepairIs(s, 5);
  }

  /** Two different ids with the same repair, neither of which the delete removes. */
  lemma LongIdsCollide()
    ensures var ids := {SurfaceId("a_a_a_X"), SurfaceId("a_a_a_a_X")};
      !Injective(Undeleted(ids))
  {
    ThreeLetters();
    FourLetters();
    var x, y := SurfaceId("a_a_a_X"), SurfaceId("a_a_a_a_X");
    var ids := {x, y};
    assert |x.text| == 7 && |y.text| == 9 && |"a_a_X"| == 5;
    assert Fixed(x) !in ids && Fixed(y) !in ids;
    assert x in Undeleted(ids) && y in Undeleted(ids);
  }

  /** A first run that goes through can leave such a pair, on which the second run fails. */
  lemma SecondRunCanFail(content: string) returns (rows: Rows, after: Rows)
    ensures rows == map[SurfaceId("a_a_a_a_a_X") := content, SurfaceId("a_a_a_a_a_a_a_X") := content]
    ensures Ran(rows, true, after) && Ran(after, false, after)
  {
    FiveLetters();
    SevenLetters();
    var x, y := SurfaceId("a_a_a_a_a_X"), SurfaceId("a_a_a_a_a_a_a_X");
    var v, w := SurfaceId("a_a_a_X"), SurfaceId("a_a_a_a_X");
    rows, after := map[x := content, y := content], map[v := content, w := content];
    PairRunsThrough(x, y, v, w, content);
    LongIdsCollide();
    assert after.Keys == {v, w};
  }

  lemma NothingDeleted(ids: set<SurfaceId>)
    requires forall x | x in ids :: Fixed(x) !in ids
    ensures Undeleted(ids) == ids
  {
    forall x | x in ids ensures x in Undeleted(ids) { assert !Redundant(ids, x); }
  }

  lemma ImageOfTwo(x: SurfaceId, y: SurfaceId)
    ensures Image({x, y}) == {Fixed(x), Fixed(y)}
    ensures Fixed(x) != Fixed(y) ==> Injective({x, y})
  {
    assert Image({x}) == {Fixed(x)};
    ImageOfMore({x}, y);
    assert {x} + {y} == {x, y};
  }

  lemma PairRunsThrough(x: SurfaceId, y: SurfaceId, v: SurfaceId, w: SurfaceId, content: string)
    requires Fixed(x) == v && Fixed(y) == w && v != w && v !in {x, y} && w !in {x, y}
    ensures Ran(map[x := content, y := content], true, map[v := content, w := content])
  {
    var rows, after := map[x := content, y := content], map[v := content, w := content];
    var ids := rows.Keys;
    assert ids == {x, y} && after.Keys == {v, w};
    assert Undeleted(ids) == ids by { NothingDeleted(ids); }
    assert Image(ids) == after.Keys && Injective(ids) by { ImageOfTwo(x, y); }
    RunsThrough(rows, after);
  }
}
