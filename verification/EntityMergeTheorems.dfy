/** What the merge of duplicate entities guarantees, for every database and every row order. */
module EntityMergeTheorems {
  import opened Orders
  import opened UnionFind
  import opened EntityTables
  import opened EntityMerge

  /** m is t merged: t's foreign keys hold, and its rows lie in some order. */
  ghost predicate Merged(t: Tables, m: Tables, aliasCtid: RowId -> nat, relCtid: Id -> nat) {
    && ForeignKeys(t)
    && RowOrder(aliasCtid, t.aliases.Keys) && RowOrder(relCtid, t.relationships.Keys)
    && MergeOutcome(t, m, aliasCtid, relCtid)
  }

  // ----- who survives --------------------------------------------------------

  lemma KeeperSurvives(t: Tables, x: Id)
    requires x in t.entities
    ensures Keepers(t)[x] in Kept(t, Keepers(t))
  {
    KeeperOfKeeper(t, x);
  }

  /** Of each cluster exactly one entity survives, the oldest, and its row is untouched. */
  lemma OneSurvivorPerCluster(t: Tables, m: Tables, aliasCtid: RowId -> nat, relCtid: Id -> nat, x: Id)
    requires Merged(t, m, aliasCtid, relCtid) && x in t.entities
    ensures exists k :: k in m.entities && IsKeeper(t, x, k) && m.entities[k] == t.entities[k]
    ensures forall y | y in m.entities :: y in t.entities && (Linked(t, x, y) ==> IsKeeper(t, x, y))
    ensures forall k, y | k in m.entities && y in t.entities && Linked(t, x, k) && Linked(t, x, y) ::
      || t.entities[k].createdAt < t.entities[y].createdAt
      || (t.entities[k].createdAt == t.entities[y].createdAt && (k == y || Less(k.text, y.text)))
  {
    KeeperIsKeeper(t, x);
    KeeperSurvives(t, x);
    forall y | y in m.entities && Linked(t, x, y) ensures IsKeeper(t, x, y) {
      SameKeeperIffLinked(t, x, y);
    }
  }

  /** Every surviving alias row names the keeper of the entity it named; nothing else in it changed. */
  lemma AliasRowsPointAtKeepers(t: Tables, m: Tables, aliasCtid: RowId -> nat, relCtid: Id -> nat, r: RowId)
    requires Merged(t, m, aliasCtid, relCtid) && r in m.aliases
    ensures r in t.aliases && m.aliases[r] == t.aliases[r].(entity := Keepers(t)[t.aliases[r].entity])
    ensures m.aliases[r].entity in m.entities
  {
    KeeperSurvives(t, t.aliases[r].entity);
  }

  lemma RelationshipRowsPointAtKeepers(t: Tables, m: Tables, aliasCtid: RowId -> nat, relCtid: Id -> nat, r: Id)
    requires Merged(t, m, aliasCtid, relCtid) && r in m.relationships
    ensures r in t.relationships
    ensures var a := t.relationships[r];
      m.relationships[r] == a.(source := Keepers(t)[a.source], target := Keepers(t)[a.target])
    ensures m.relationships[r].source in m.entities && m.relationships[r].target in m.entities
  {
    KeeperSurvives(t, t.relationships[r].source);
    KeeperSurvives(t, t.relationships[r].target);
  }

  /** No fact is lost: each row survives, naming the keeper of the entity it named. */
  lemma FactsAreAllKept(t: Tables, m: Tables, aliasCtid: RowId -> nat, relCtid: Id -> nat, r: Id)
    requires Merged(t, m, aliasCtid, relCtid) && r in t.facts
    ensures m.facts.Keys == t.facts.Keys
    ensures m.facts[r] == t.facts[r].(entity := Keepers(t)[t.facts[r].entity])
    ensures m.facts[r].entity in m.entities
  {
    KeeperSurvives(t, t.facts[r].entity);
  }

  /** No foreign key is left dangling. */
  lemma ForeignKeysHold(t: Tables, m: Tables, aliasCtid: RowId -> nat, relCtid: Id -> nat)
    requires Merged(t, m, aliasCtid, relCtid)
    ensures ForeignKeys(m)
  {
    assert forall r | r in m.aliases :: m.aliases[r].entity in m.entities by {
      forall r | r in m.aliases ensures m.aliases[r].entity in m.entities {
        AliasRowsPointAtKeepers(t, m, aliasCtid, relCtid, r);
      }
    }
    assert forall r | r in m.relationships ::
      m.relationships[r].source in m.entities && m.relationships[r].target in m.entities
    by {
      forall r | r in m.relationships
        ensures m.relationships[r].source in m.entities && m.relationships[r].target in m.entities
      {
        RelationshipRowsPointAtKeepers(t, m, aliasCtid, relCtid, r);
      }
    }
    assert forall r | r in m.facts :: m.facts[r].entity in m.entities by {
      forall r | r in m.facts ensures m.facts[r].entity in m.entities {
        FactsAreAllKept(t, m, aliasCtid, relCtid, r);
      }
    }
  }

  /** A memory's array names, each once, the keepers of the entities it named; an id that is no
      entity stays as it was. Only a null or an empty array becomes null. */
  lemma MemoriesNameKeepers(t: Tables, m: Tables, aliasCtid: RowId -> nat, relCtid: Id -> nat, r: Id)
    requires Merged(t, m, aliasCtid, relCtid) && r in t.memories
    ensures r in m.memories
    ensures (t.memories[r] == None || t.memories[r] == Some([])) <==> m.memories[r] == None
    ensures m.memories[r].Some? ==>
      forall i, j | 0 <= i < j < |m.memories[r].value| :: m.memories[r].value[i] != m.memories[r].value[j]
    ensures m.memories[r].Some? ==> forall x ::
              x in m.memories[r].value <==>
              exists y :: y in t.memories[r].value && x == if y in t.entities then Keepers(t)[y] else y
  {
    var moved := MoveAll(Keepers(t), t.memories[r]);
    assert MovedMemories(t.memories, Keepers(t))[r] == moved;
    assert Aggregated(moved, m.memories[r]);
    if m.memories[r].Some? { MovedElements(Keepers(t), t.memories[r].value); }
  }

  lemma MovedElements(to: map<Id, Id>, s: seq<Id>)
    ensures forall x :: x in MoveAll(to, Some(s)).value <==> exists y :: y in s && x == Move(to, y)
  {
    var moved := MoveAll(to, Some(s)).value;
    forall x ensures x in moved <==> exists y :: y in s && x == Move(to, y) {
      if x in moved {
        var i :| 0 <= i < |s| && moved[i] == x;
        assert s[i] in s;
      }
      if y :| y in s && x == Move(to, y) {
        var i :| 0 <= i < |s| && s[i] == y;
        assert moved[i] == x;
      }
    }
  }

  // ----- what de-duplication keeps --------------------------------------------

  lemma {:induction false} EarliestRow<K>(rows: set<K>, ctid: K -> nat) returns (e: K)
    requires rows != {}
    ensures e in rows && forall r | r in rows :: ctid(e) <= ctid(r)
  {
    var a :| a in rows;
    if rows == {a} {
      e := a;
    } else {
      var f := EarliestRow(rows - {a}, ctid);
      e := if ctid(a) <= ctid(f) then a else f;
    }
  }

  /** The surviving row for r's entity and text is the earliest row that has them. */
  lemma DistinctAliasesKeepFirst(rows: map<RowId, Alias>, ctid: RowId -> nat, r: RowId) returns (q: RowId)
    requires RowOrder(ctid, rows.Keys) && r in rows
    ensures q in DistinctAliases(rows, ctid) && SameAliasText(rows[q], rows[r])
    ensures forall s | s in rows && SameAliasText(rows[s], rows[r]) :: ctid(q) <= ctid(s)
    ensures forall s | s in DistinctAliases(rows, ctid) && SameAliasText(rows[s], rows[r]) :: s == q
  {
    var same := set s | s in rows && SameAliasText(rows[s], rows[r]);
    assert r in same;
    q := EarliestRow(same, ctid);
    forall s | s in DistinctAliases(rows, ctid) && SameAliasText(rows[s], rows[r]) ensures s == q {
      assert s in same && SameAliasText(rows[s], rows[q]);
    }
  }

  lemma DistinctTriplesKeepFirst(rows: map<Id, Relationship>, ctid: Id -> nat, r: Id) returns (q: Id)
    requires RowOrder(ctid, rows.Keys) && r in rows
    ensures q in DistinctTriples(rows, ctid) && SameTriple(rows[q], rows[r])
    ensures forall s | s in rows && SameTriple(rows[s], rows[r]) :: ctid(q) <= ctid(s)
    ensures forall s | s in DistinctTriples(rows, ctid) && SameTriple(rows[s], rows[r]) :: s == q
  {
    var same := set s | s in rows && SameTriple(rows[s], rows[r]);
    assert r in same;
    q := EarliestRow(same, ctid);
    forall s | s in DistinctTriples(rows, ctid) && SameTriple(rows[s], rows[r]) ensures s == q {
      assert s in same && SameTriple(rows[s], rows[q]);
    }
  }

  /** q is the first row, in row order, holding this alias text for any entity linked to x. */
  ghost predicate FirstAliasRow(t: Tables, aliasCtid: RowId -> nat, x: Id, text: string, q: RowId) {
    && q in t.aliases && Linked(t, x, t.aliases[q].entity) && t.aliases[q].alias == text
    && forall r | r in t.aliases && Linked(t, x, t.aliases[r].entity) && t.aliases[r].alias == text ::
         aliasCtid(q) <= aliasCtid(r)
  }

  /** Each alias text recorded for a cluster stays on its keeper in exactly one row: the first. */
  lemma AliasTextKeptOnce(t: Tables, m: Tables, aliasCtid: RowId -> nat, relCtid: Id -> nat, r: RowId)
    returns (q: RowId)
    requires Merged(t, m, aliasCtid, relCtid) && r in t.aliases
    ensures q in m.aliases && FirstAliasRow(t, aliasCtid, t.aliases[r].entity, t.aliases[r].alias, q)
    ensures forall s | s in m.aliases ::
      m.aliases[s].entity == Keepers(t)[t.aliases[r].entity] && m.aliases[s].alias == t.aliases[r].alias <==> s == q
  {
    var x, text := t.aliases[r].entity, t.aliases[r].alias;
    var moved := MovedAliases(t.aliases, Keepers(t));
    q := DistinctAliasesKeepFirst(moved, aliasCtid, r);
    forall s | s in t.aliases
      ensures SameAliasText(moved[s], moved[r]) <==> Linked(t, x, t.aliases[s].entity) && t.aliases[s].alias == text
    {
      SameKeeperIffLinked(t, x, t.aliases[s].entity);
    }
  }

  /** No self-loop and no repeated triple is left. */
  lemma TriplesDistinct(t: Tables, m: Tables, aliasCtid: RowId -> nat, relCtid: Id -> nat)
    requires Merged(t, m, aliasCtid, relCtid)
    ensures forall r | r in m.relationships :: m.relationships[r].source != m.relationships[r].target
    ensures forall r, s | r in m.relationships && s in m.relationships
              && m.relationships[r].source == m.relationships[s].source
              && m.relationships[r].relation == m.relationships[s].relation
              && m.relationships[r].target == m.relationships[s].target :: r == s
  {
    var straight := WithoutLoops(MovedRelationships(t.relationships, Keepers(t)));
    forall r, s | r in m.relationships && s in m.relationships && SameTriple(m.relationships[r], m.relationships[s])
      ensures r == s
    {
      var q := DistinctTriplesKeepFirst(straight, relCtid, s);
    }
  }

  /** A relationship's triple survives exactly when its two ends were not merged into one. */
  lemma TripleKeptUnlessLooped(t: Tables, m: Tables, aliasCtid: RowId -> nat, relCtid: Id -> nat, r: Id)
    requires Merged(t, m, aliasCtid, relCtid) && r in t.relationships
    ensures var a := t.relationships[r];
      var kept := a.(source := Keepers(t)[a.source], target := Keepers(t)[a.target]);
      !Linked(t, a.source, a.target) <==> exists s :: s in m.relationships && m.relationships[s] == kept
  {
    var a := t.relationships[r];
    var moved := MovedRelationships(t.relationships, Keepers(t));
    SameKeeperIffLinked(t, a.source, a.target);
    if !Linked(t, a.source, a.target) {
      var q := DistinctTriplesKeepFirst(WithoutLoops(moved), relCtid, r);
      assert m.relationships[q] == moved[r];
    }
  }

  /** Of the rows whose triples became one, the first in row order is the one that is left. */
  lemma FirstTripleStays(t: Tables, m: Tables, aliasCtid: RowId -> nat, relCtid: Id -> nat, r: Id, s: Id)
    requires Merged(t, m, aliasCtid, relCtid) && r in m.relationships && s in t.relationships
    requires m.relationships[r] == Relationship(
               Keepers(t)[t.relationships[s].source], t.relationships[s].relation, Keepers(t)[t.relationships[s].target])
    ensures relCtid(r) <= relCtid(s)
  {
    var straight := WithoutLoops(MovedRelationships(t.relationships, Keepers(t)));
    var q := DistinctTriplesKeepFirst(straight, relCtid, r);
  }

  // ----- the constraints the migration adds next -------------------------------

  ghost predicate NamesUnique(t: Tables) {
    forall x, y | x in t.entities && y in t.entities && t.entities[x].workspace == t.entities[y].workspace
                  && t.entities[x].kind == t.entities[y].kind && t.entities[x].name == t.entities[y].name :: x == y
  }

  ghost predicate IdentifiersUnique(t: Tables) {
    forall r, s | r in t.aliases && s in t.aliases && t.aliases[r].kind in {"email", "handle"}
                  && t.aliases[s].kind in {"email", "handle"} && t.aliases[r].workspace == t.aliases[s].workspace
                  && t.aliases[r].alias == t.aliases[s].alias :: r == s
  }

  /** One entity per name key, and one row per strong identifier. */
  lemma ConstraintsHold(t: Tables, m: Tables, aliasCtid: RowId -> nat, relCtid: Id -> nat)
    requires Merged(t, m, aliasCtid, relCtid)
    ensures NamesUnique(m) && IdentifiersUnique(m)
  {
    forall x, y | x in m.entities && y in m.entities && SameName(m.entities[x], m.entities[y]) ensures x == y {
      assert Duplicates(t, x, y);
      DuplicatesShareKeeper(t, x, y);
    }
    forall r, s | r in m.aliases && s in m.aliases && SameIdentifier(m.aliases[r], m.aliases[s]) ensures r == s {
      IdentifierKeptOnce(t, m, aliasCtid, relCtid, r, s);
    }
  }

  lemma IdentifierKeptOnce(t: Tables, m: Tables, aliasCtid: RowId -> nat, relCtid: Id -> nat, r: RowId, s: RowId)
    requires Merged(t, m, aliasCtid, relCtid)
    requires r in m.aliases && s in m.aliases && SameIdentifier(m.aliases[r], m.aliases[s])
    ensures r == s
  {
    var moved := MovedAliases(t.aliases, Keepers(t));
    assert SameIdentifier(t.aliases[r], t.aliases[s]);
    assert Duplicates(t, t.aliases[r].entity, t.aliases[s].entity);
    DuplicatesShareKeeper(t, t.aliases[r].entity, t.aliases[s].entity);
    var q := DistinctAliasesKeepFirst(moved, aliasCtid, s);
    assert SameAliasText(moved[r], moved[s]);
  }

  lemma DuplicatesShareKeeper(t: Tables, x: Id, y: Id)
    requires x in t.entities && y in t.entities && Duplicates(t, x, y)
    ensures Keepers(t)[x] == Keepers(t)[y]
  {
    assert (x, y) in Links(t);
    ConnectedEdge(Links(t), x, y);
    SameKeeperIffLinked(t, x, y);
  }

  // ----- running it again -------------------------------------------------------

  /** In a database that already meets both constraints nobody is anybody's duplicate. */
  lemma NobodyLinked(t: Tables, x: Id, y: Id)
    requires NamesUnique(t) && IdentifiersUnique(t) && x in t.entities && Linked(t, x, y)
    ensures x == y
  {
    var own := map e | e in t.entities :: e;
    forall e | e in Links(t) ensures e.0 in own && e.1 in own && own[e.0] == own[e.1] {
      assert Duplicates(t, e.0, e.1);
    }
    var p :| IsPath(Links(t), p, x, y);
    AgreesAlongPath(Links(t), own, p, x, y);
  }

  /** The same array up to the order of its elements. */
  ghost predicate SameElements(a: Option<seq<Id>>, b: Option<seq<Id>>) {
    a.Some? == b.Some? && (a.Some? ==> forall x :: x in a.value <==> x in b.value)
  }

  /** Where both constraints hold, everyone is their own keeper and nothing is re-pointed. */
  lemma NothingToMerge(t: Tables)
    requires NamesUnique(t) && IdentifiersUnique(t)
    ensures Kept(t, Keepers(t)) == t.entities && Repointed(t, Keepers(t)) == t
  {
    forall x | x in t.entities ensures Keepers(t)[x] == x {
      KeeperIsKeeper(t, x);
      NobodyLinked(t, x, Keepers(t)[x]);
    }
    MovesAgree(t, Keepers(t), map[]);
    RepointingNobody(t);
  }

  /** A second merge changes no row, and no memory except for the order of its ids. */
  lemma MergingAgainChangesNothing(
      t: Tables, m: Tables, again: Tables, aliasCtid: RowId -> nat, relCtid: Id -> nat,
      aliasCtid': RowId -> nat, relCtid': Id -> nat)
    requires Merged(t, m, aliasCtid, relCtid) && MergeOutcome(m, again, aliasCtid', relCtid')
    ensures again.entities == m.entities && again.aliases == m.aliases
    ensures again.relationships == m.relationships && again.facts == m.facts
    ensures again.memories.Keys == m.memories.Keys
    ensures forall r | r in m.memories :: SameElements(m.memories[r], again.memories[r])
  {
    ConstraintsHold(t, m, aliasCtid, relCtid);
    NothingToMerge(m);
    NoAliasTextTwice(t, m, aliasCtid, relCtid, aliasCtid');
    NoTripleTwice(t, m, aliasCtid, relCtid, relCtid');
    MemoriesAlreadyDistinct(t, m, aliasCtid, relCtid, again);
  }

  lemma NoAliasTextTwice(t: Tables, m: Tables, aliasCtid: RowId -> nat, relCtid: Id -> nat, later: RowId -> nat)
    requires Merged(t, m, aliasCtid, relCtid)
    ensures DistinctAliases(m.aliases, later) == m.aliases
  {
    var moved := MovedAliases(t.aliases, Keepers(t));
    forall r, s | r in m.aliases && s in m.aliases && SameAliasText(m.aliases[r], m.aliases[s]) ensures r == s {
      var q := DistinctAliasesKeepFirst(moved, aliasCtid, s);
    }
  }

  lemma NoTripleTwice(t: Tables, m: Tables, aliasCtid: RowId -> nat, relCtid: Id -> nat, later: Id -> nat)
    requires Merged(t, m, aliasCtid, relCtid)
    ensures DistinctTriples(WithoutLoops(m.relationships), later) == m.relationships
  {
    TriplesDistinct(t, m, aliasCtid, relCtid);
    assert WithoutLoops(m.relationships) == m.relationships;
  }

  lemma MemoriesAlreadyDistinct(t: Tables, m: Tables, aliasCtid: RowId -> nat, relCtid: Id -> nat, again: Tables)
    requires Merged(t, m, aliasCtid, relCtid) && AllAggregated(m.memories, again.memories)
    ensures forall r | r in m.memories :: SameElements(m.memories[r], again.memories[r])
  {
    var moved := MovedMemories(t.memories, Keepers(t));
    forall r | r in m.memories ensures SameElements(m.memories[r], again.memories[r]) {
      AggregatedTwice(moved[r], m.memories[r], again.memories[r]);
    }
  }

  lemma AggregatedTwice(ids: Option<seq<Id>>, once: Option<seq<Id>>, twice: Option<seq<Id>>)
    requires Aggregated(ids, once) && Aggregated(once, twice)
    ensures SameElements(once, twice)
  {
    if ids.Some? && ids.value != [] { assert ids.value[0] in ids.value; }
  }

  // ----- what the merge does not promise -----------------------------------------

  /** The alias pass compares text only, so a strong identifier stays recorded as one exactly
      when the first row with its text, on any entity of the cluster, is itself that identifier. */
  lemma StrongIdentifierKeptIffFirst(t: Tables, m: Tables, aliasCtid: RowId -> nat, relCtid: Id -> nat, r: RowId)
    requires Merged(t, m, aliasCtid, relCtid) && r in t.aliases && Strong(t.aliases[r])
    ensures (exists s :: s in m.aliases && SameIdentifier(m.aliases[s], t.aliases[r]))
      <==> (exists q :: FirstAliasRow(t, aliasCtid, t.aliases[r].entity, t.aliases[r].alias, q)
                        && SameIdentifier(t.aliases[q], t.aliases[r]))
  {
    var q := AliasTextKeptOnce(t, m, aliasCtid, relCtid, r);
    if s :| s in m.aliases && SameIdentifier(m.aliases[s], t.aliases[r]) {
      AliasRowsPointAtKeepers(t, m, aliasCtid, relCtid, s);
      assert Duplicates(t, t.aliases[s].entity, t.aliases[r].entity);
      DuplicatesShareKeeper(t, t.aliases[s].entity, t.aliases[r].entity);
      assert s == q;
    }
    if p :| FirstAliasRow(t, aliasCtid, t.aliases[r].entity, t.aliases[r].alias, p)
            && SameIdentifier(t.aliases[p], t.aliases[r])
    {
      assert aliasCtid(p) == aliasCtid(q);
      AliasRowsPointAtKeepers(t, m, aliasCtid, relCtid, q);
    }
  }

  /** The merge left a row with r's strong identifier. */
  ghost predicate IdentifierKept(t: Tables, m: Tables, r: RowId)
    requires r in t.aliases
  {
    exists s :: s in m.aliases && SameIdentifier(m.aliases[s], t.aliases[r])
  }

  /** Whatever text of r's an entity of the cluster has, it has as the same identifier. */
  ghost predicate AlwaysThatIdentifier(t: Tables, r: RowId)
    requires r in t.aliases
  {
    forall q | q in t.aliases && Linked(t, t.aliases[r].entity, t.aliases[q].entity)
               && t.aliases[q].alias == t.aliases[r].alias ::
      SameIdentifier(t.aliases[q], t.aliases[r])
  }

  /** The merge's own updates move rows, so where they lie when it deletes is not for a caller to
      know. However they lie, a strong identifier is kept exactly when no alias row of the cluster
      has its text under a kind that is not strong, or in another workspace. */
  lemma StrongIdentifierKeptInEveryOrderIff(t: Tables, r: RowId)
    requires ForeignKeys(t) && r in t.aliases && Strong(t.aliases[r])
    ensures AlwaysThatIdentifier(t, r) <==>
      forall m, aliasCtid: RowId -> nat, relCtid: Id -> nat | Merged(t, m, aliasCtid, relCtid) :: IdentifierKept(t, m, r)
  {
    if AlwaysThatIdentifier(t, r) {
      forall m, aliasCtid: RowId -> nat, relCtid: Id -> nat | Merged(t, m, aliasCtid, relCtid)
        ensures IdentifierKept(t, m, r)
      {
        StrongIdentifierKeptIffFirst(t, m, aliasCtid, relCtid, r);
        var q := AliasTextKeptOnce(t, m, aliasCtid, relCtid, r);
        assert SameIdentifier(t.aliases[q], t.aliases[r]);
      }
    } else {
      var q :| q in t.aliases && Linked(t, t.aliases[r].entity, t.aliases[q].entity)
               && t.aliases[q].alias == t.aliases[r].alias && !SameIdentifier(t.aliases[q], t.aliases[r]);
      var m, aliasCtid, relCtid := IdentifierLost(t, q, r);
    }
  }

  /** Where such a row comes first, the merge loses the identifier. */
  lemma IdentifierLost(t: Tables, q: RowId, r: RowId) returns (m: Tables, aliasCtid: RowId -> nat, relCtid: Id -> nat)
    requires ForeignKeys(t) && q in t.aliases && r in t.aliases && Strong(t.aliases[r])
    requires Linked(t, t.aliases[r].entity, t.aliases[q].entity) && t.aliases[q].alias == t.aliases[r].alias
    requires !SameIdentifier(t.aliases[q], t.aliases[r])
    ensures Merged(t, m, aliasCtid, relCtid) && !IdentifierKept(t, m, r)
  {
    aliasCtid := OrderWithFirst(t.aliases.Keys, q);
    relCtid := SomeOrder(t.relationships.Keys);
    m := SomeOutcome(t, aliasCtid, relCtid);
    StrongIdentifierKeptIffFirst(t, m, aliasCtid, relCtid, r);
  }

  /** A physical order of any rows. */
  lemma {:induction false} SomePlaces<K>(keys: set<K>) returns (places: map<K, nat>, next: nat)
    ensures places.Keys == keys && (forall k | k in keys :: places[k] < next)
    ensures forall k, l | k in keys && l in keys && places[k] == places[l] :: k == l
  {
    if keys == {} {
      places, next := map[], 0;
    } else {
      var k :| k in keys;
      var rest, n := SomePlaces(keys - {k});
      places, next := rest[k := n], n + 1;
    }
  }

  lemma SomeOrder<K>(keys: set<K>) returns (ctid: K -> nat)
    ensures RowOrder(ctid, keys)
  {
    var places, _ := SomePlaces(keys);
    ctid := k => if k in places then places[k] else 0;
  }

  /** One in which a given row comes first. */
  lemma OrderWithFirst<K>(keys: set<K>, q: K) returns (ctid: K -> nat)
    requires q in keys
    ensures RowOrder(ctid, keys) && forall k | k in keys && ctid(k) <= ctid(q) :: k == q
  {
    var places, _ := SomePlaces(keys);
    ctid := k => if k == q then 0 else if k in places then places[k] + 1 else 0;
  }

  /** The distinct elements of an array, in order of first appearance. */
  ghost function Distinct(s: seq<Id>): (d: seq<Id>)
    ensures (forall x :: x in d <==> x in s) && NoRepeats(d) && |d| <= |s|
  {
    if s == [] then []
    else
      var n := |s| - 1;
      assert s == s[..n] + [s[n]];
      if s[n] in s[..n] then Distinct(s[..n]) else Distinct(s[..n]) + [s[n]]
  }

  ghost function AggregateOf(ids: Option<seq<Id>>): (agg: Option<seq<Id>>)
    ensures Aggregated(ids, agg)
  {
    match ids
    case None => None
    case Some(s) => if s == [] then None else Some(Distinct(s))
  }

  /** Every database can be merged, under every row order. */
  lemma SomeOutcome(t: Tables, aliasCtid: RowId -> nat, relCtid: Id -> nat) returns (m: Tables)
    requires ForeignKeys(t) && RowOrder(aliasCtid, t.aliases.Keys) && RowOrder(relCtid, t.relationships.Keys)
    ensures Merged(t, m, aliasCtid, relCtid)
  {
    var moved := Repointed(t, Keepers(t));
    m := Tables(
      Kept(t, Keepers(t)), DistinctAliases(moved.aliases, aliasCtid),
      DistinctTriples(WithoutLoops(moved.relationships), relCtid), moved.facts,
      map r | r in moved.memories :: AggregateOf(moved.memories[r]));
  }

  /** Ann's address is stored first as a plain name and then as an email. */
  function AddressTwice(): Tables {
    var ann, bob := Id("a"), Id("b");
    Tables(
      map[ann := Entity("w", "person", "Ann", 0), bob := Entity("w", "person", "Bob", 1)],
      map[RowId(0) := Alias(ann, "w", "ann@x", "name"), RowId(1) := Alias(ann, "w", "ann@x", "email")],
      map[Id("r") := Relationship(ann, "knows", bob)],
      map[Id("f") := Fact(ann, "city", 0, None, None)],
      map[Id("m") := Some([ann])])
  }

  /** Merging that database can lose her email address as an identifier. */
  lemma StrongIdentifierCanBeLost() returns (m: Tables, aliasCtid: RowId -> nat, relCtid: Id -> nat)
    ensures var t := AddressTwice();
      Merged(t, m, aliasCtid, relCtid) && Strong(t.aliases[RowId(1)]) && !IdentifierKept(t, m, RowId(1))
  {
    var t := AddressTwice();
    ConnectedReflexive(Links(t), t.aliases[RowId(1)].entity);
    m, aliasCtid, relCtid := IdentifierLost(t, RowId(0), RowId(1));
  }

  ghost predicate SameWorkspace(t: Tables, x: Id, y: Id) {
    x in t.entities && y in t.entities && t.entities[x].workspace == t.entities[y].workspace
  }

  /** No strong identifier is recorded for entities of two workspaces. */
  ghost predicate IdentifiersStay(t: Tables) {
    forall r, s | r in t.aliases && s in t.aliases && SameIdentifier(t.aliases[r], t.aliases[s]) ::
      SameWorkspace(t, t.aliases[r].entity, t.aliases[s].entity)
  }

  /** Clusters stay inside a workspace exactly when no strong identifier is recorded for entities
      of two workspaces. */
  lemma ClustersStayInWorkspaceIff(t: Tables)
    requires ForeignKeys(t)
    ensures (forall x, y | x in t.entities && Linked(t, x, y) :: SameWorkspace(t, x, y))
      <==> IdentifiersStay(t)
  {
    if IdentifiersStay(t) {
      forall x, y | x in t.entities && Linked(t, x, y) ensures SameWorkspace(t, x, y) {
        LinksKeepWorkspace(t, x, y);
      }
    } else {
      var r, s :| r in t.aliases && s in t.aliases && SameIdentifier(t.aliases[r], t.aliases[s])
                  && !SameWorkspace(t, t.aliases[r].entity, t.aliases[s].entity);
      assert (t.aliases[r].entity, t.aliases[s].entity) in Links(t);
      ConnectedEdge(Links(t), t.aliases[r].entity, t.aliases[s].entity);
    }
  }

  lemma LinksKeepWorkspace(t: Tables, x: Id, y: Id)
    requires IdentifiersStay(t) && x in t.entities && Linked(t, x, y)
    ensures SameWorkspace(t, x, y)
  {
    var workspace := map e | e in t.entities :: t.entities[e].workspace;
    forall e | e in Links(t)
      ensures e.0 in workspace && e.1 in workspace && workspace[e.0] == workspace[e.1]
    {
      assert Duplicates(t, e.0, e.1);
    }
    var p :| IsPath(Links(t), p, x, y);
    AgreesAlongPath(Links(t), workspace, p, x, y);
  }

  /** It is enough that strong aliases carry their entity's workspace. */
  lemma ClustersStayInWorkspace(t: Tables, x: Id, y: Id)
    requires forall r | r in t.aliases && Strong(t.aliases[r]) ::
               t.aliases[r].entity in t.entities && t.entities[t.aliases[r].entity].workspace == t.aliases[r].workspace
    requires x in t.entities && Linked(t, x, y)
    ensures y in t.entities && t.entities[x].workspace == t.entities[y].workspace
  {
    LinksKeepWorkspace(t, x, y);
  }
}
