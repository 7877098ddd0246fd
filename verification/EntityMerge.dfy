/** The merge of duplicate entities: union-find over names and strong identifiers, one keeper
    per cluster, every reference re-pointed, then the de-duplication passes. */
module EntityMerge {
  import opened Orders
  import opened EntityTables
  import opened EntityClusters

  // ----- what the statements do to the tables ------------------------------

  function Move(to: map<Id, Id>, x: Id): Id {
    if x in to then to[x] else x
  }

  function MoveAll(to: map<Id, Id>, ids: Option<seq<Id>>): Option<seq<Id>> {
    match ids
    case None => None
    case Some(s) => Some(seq(|s|, i requires 0 <= i < |s| => Move(to, s[i])))
  }

  function MovedAliases(rows: map<RowId, Alias>, to: map<Id, Id>): (moved: map<RowId, Alias>)
    ensures moved.Keys == rows.Keys
  {
    map r | r in rows :: rows[r].(entity := Move(to, rows[r].entity))
  }

  function MovedRelationships(rows: map<Id, Relationship>, to: map<Id, Id>): (moved: map<Id, Relationship>)
    ensures moved.Keys == rows.Keys
  {
    map r | r in rows :: rows[r].(source := Move(to, rows[r].source), target := Move(to, rows[r].target))
  }

  function MovedFacts(rows: map<Id, Fact>, to: map<Id, Id>): (moved: map<Id, Fact>)
    ensures moved.Keys == rows.Keys
  {
    map r | r in rows :: rows[r].(entity := Move(to, rows[r].entity))
  }

  function MovedMemories(rows: map<Id, Option<seq<Id>>>, to: map<Id, Id>): (moved: map<Id, Option<seq<Id>>>)
    ensures moved.Keys == rows.Keys
  {
    map r | r in rows :: MoveAll(to, rows[r])
  }

  /** Every reference re-pointed by `to`; the entity rows themselves are left alone. */
  function Repointed(t: Tables, to: map<Id, Id>): Tables {
    t.(aliases := MovedAliases(t.aliases, to),
       relationships := MovedRelationships(t.relationships, to),
       facts := MovedFacts(t.facts, to),
       memories := MovedMemories(t.memories, to))
  }

  /** Deleting entities takes every row that still names one of them along (ON DELETE CASCADE). */
  function DeleteEntities(t: Tables, ids: set<Id>): Tables {
    t.(entities := map x | x in t.entities && x !in ids :: t.entities[x],
       aliases := map r | r in t.aliases && t.aliases[r].entity !in ids :: t.aliases[r],
       relationships := map r | r in t.relationships && t.relationships[r].source !in ids && t.relationships[r].target !in ids ::
         t.relationships[r],
       facts := map r | r in t.facts && t.facts[r].entity !in ids :: t.facts[r])
  }

  /** The cascade takes every row that names a deleted entity and no other, so that no reference is
      left without its entity. */
  lemma CascadeKeepsForeignKeys(t: Tables, ids: set<Id>)
    ensures ForeignKeys(t) ==> ForeignKeys(DeleteEntities(t, ids))
    ensures var d := DeleteEntities(t, ids);
      && d.entities.Keys == t.entities.Keys - ids && d.memories == t.memories
      && (forall x | x in d.entities :: d.entities[x] == t.entities[x])
      && (forall r | r in t.aliases && t.aliases[r].entity !in ids :: r in d.aliases && d.aliases[r] == t.aliases[r])
      && (forall r | r in t.facts && t.facts[r].entity !in ids :: r in d.facts && d.facts[r] == t.facts[r])
      && (forall r | r in t.relationships && t.relationships[r].source !in ids && t.relationships[r].target !in ids ::
            r in d.relationships && d.relationships[r] == t.relationships[r])
  {
  }

  lemma MoveComposes(done: map<Id, Id>, l: Id, k: Id, x: Id)
    requires l !in done.Keys && l !in done.Values
    ensures Move(map[l := k], Move(done, x)) == Move(done[l := k], x)
  {
    if x in done { assert done[x] in done.Values; }
  }

  lemma MoveAllComposes(done: map<Id, Id>, l: Id, k: Id, ids: Option<seq<Id>>)
    requires l !in done.Keys && l !in done.Values
    ensures MoveAll(map[l := k], MoveAll(done, ids)) == MoveAll(done[l := k], ids)
  {
    forall x ensures Move(map[l := k], Move(done, x)) == Move(done[l := k], x) { MoveComposes(done, l, k, x); }
    if ids.Some? {
      assert MoveAll(map[l := k], MoveAll(done, ids)).value == MoveAll(done[l := k], ids).value;
    }
  }

  lemma AliasesCompose(rows: map<RowId, Alias>, done: map<Id, Id>, l: Id, k: Id)
    requires l !in done.Keys && l !in done.Values
    ensures MovedAliases(MovedAliases(rows, done), map[l := k]) == MovedAliases(rows, done[l := k])
  {
    var twice, once := MovedAliases(MovedAliases(rows, done), map[l := k]), MovedAliases(rows, done[l := k]);
    forall r | r in rows ensures twice[r] == once[r] {
      MoveComposes(done, l, k, rows[r].entity);
    }
  }

  lemma RelationshipsCompose(rows: map<Id, Relationship>, done: map<Id, Id>, l: Id, k: Id)
    requires l !in done.Keys && l !in done.Values
    ensures MovedRelationships(MovedRelationships(rows, done), map[l := k]) == MovedRelationships(rows, done[l := k])
  {
    var twice, once := MovedRelationships(MovedRelationships(rows, done), map[l := k]), MovedRelationships(rows, done[l := k]);
    forall r | r in rows ensures twice[r] == once[r] {
      MoveComposes(done, l, k, rows[r].source);
      MoveComposes(done, l, k, rows[r].target);
    }
  }

  lemma FactsCompose(rows: map<Id, Fact>, done: map<Id, Id>, l: Id, k: Id)
    requires l !in done.Keys && l !in done.Values
    ensures MovedFacts(MovedFacts(rows, done), map[l := k]) == MovedFacts(rows, done[l := k])
  {
    var twice, once := MovedFacts(MovedFacts(rows, done), map[l := k]), MovedFacts(rows, done[l := k]);
    forall r | r in rows ensures twice[r] == once[r] {
      MoveComposes(done, l, k, rows[r].entity);
    }
  }

  lemma MemoriesCompose(rows: map<Id, Option<seq<Id>>>, done: map<Id, Id>, l: Id, k: Id)
    requires l !in done.Keys && l !in done.Values
    ensures MovedMemories(MovedMemories(rows, done), map[l := k]) == MovedMemories(rows, done[l := k])
  {
    var twice, once := MovedMemories(MovedMemories(rows, done), map[l := k]), MovedMemories(rows, done[l := k]);
    forall r | r in rows ensures twice[r] == once[r] {
      MoveAllComposes(done, l, k, rows[r]);
    }
  }

  /** Re-pointing one more loser after `done` is re-pointing the enlarged map at once. */
  lemma RepointingComposes(t: Tables, done: map<Id, Id>, l: Id, k: Id)
    requires l !in done.Keys && l !in done.Values
    ensures Repointed(Repointed(t, done), map[l := k]) == Repointed(t, done[l := k])
  {
    AliasesCompose(t.aliases, done, l, k);
    RelationshipsCompose(t.relationships, done, l, k);
    FactsCompose(t.facts, done, l, k);
    MemoriesCompose(t.memories, done, l, k);
  }

  // ----- the duplicate-removing deletes ------------------------------------

  /** A physical row order: every row has its own place. */
  ghost predicate RowOrder<K>(ctid: K -> nat, keys: set<K>) {
    forall r, s | r in keys && s in keys && ctid(r) == ctid(s) :: r == s
  }

  predicate SameAliasText(a: Alias, b: Alias) {
    a.entity == b.entity && a.alias == b.alias
  }

  predicate SameTriple(a: Relationship, b: Relationship) {
    a.source == b.source && a.relation == b.relation && a.target == b.target
  }

  /** Drops each alias row that has an earlier row with the same entity and alias text. */
  function DistinctAliases(rows: map<RowId, Alias>, ctid: RowId -> nat): map<RowId, Alias>
  {
    map r | r in rows && !(exists s | s in rows :: ctid(s) < ctid(r) && SameAliasText(rows[r], rows[s])) :: rows[r]
  }

  function WithoutLoops(rows: map<Id, Relationship>): map<Id, Relationship> {
    map r | r in rows && rows[r].source != rows[r].target :: rows[r]
  }

  function DistinctTriples(rows: map<Id, Relationship>, ctid: Id -> nat): map<Id, Relationship>
  {
    map r | r in rows && !(exists s | s in rows :: ctid(s) < ctid(r) && SameTriple(rows[r], rows[s])) :: rows[r]
  }

  /** `array_agg(DISTINCT e)`: the same ids, each once, in an order of the database's choosing;
      aggregating no rows at all gives null. */
  ghost predicate Aggregated(ids: Option<seq<Id>>, agg: Option<seq<Id>>) {
    match ids
    case None => agg == None
    case Some(s) =>
      if s == [] then agg == None
      else agg.Some? && (forall x :: x in agg.value <==> x in s) && NoRepeats(agg.value)
  }

  ghost predicate AllAggregated(rows: map<Id, Option<seq<Id>>>, agg: map<Id, Option<seq<Id>>>) {
    agg.Keys == rows.Keys && forall r | r in rows :: Aggregated(rows[r], agg[r])
  }

  ghost predicate NoRepeats(s: seq<Id>) {
    forall i, j | 0 <= i < j < |s| :: s[i] != s[j]
  }

  // ----- the whole merge ----------------------------------------------------

  /** The entities that are their own keeper, unchanged. */
  ghost function Kept(t: Tables, k: map<Id, Id>): map<Id, Entity>
    requires k.Keys == t.entities.Keys
  {
    map x | x in t.entities && k[x] == x :: t.entities[x]
  }

  /** Everything the merge leaves behind, given where rows lay when the deletes ran. */
  ghost predicate MergeOutcome(t: Tables, m: Tables, aliasCtid: RowId -> nat, relCtid: Id -> nat)
  {
    var moved := Repointed(t, Keepers(t));
    && m.entities == Kept(t, Keepers(t))
    && m.aliases == DistinctAliases(moved.aliases, aliasCtid)
    && m.relationships == DistinctTriples(WithoutLoops(moved.relationships), relCtid)
    && m.facts == moved.facts
    && AllAggregated(moved.memories, m.memories)
  }

  // ----- the single statements ---------------------------------------------

  function UpdateAliases(rows: map<RowId, Alias>, l: Id, k: Id): (updated: map<RowId, Alias>)
    ensures updated == MovedAliases(rows, map[l := k])
  {
    map r | r in rows :: if rows[r].entity == l then rows[r].(entity := k) else rows[r]
  }

  function UpdateSources(rows: map<Id, Relationship>, l: Id, k: Id): (updated: map<Id, Relationship>)
  {
    map r | r in rows :: if rows[r].source == l then rows[r].(source := k) else rows[r]
  }

  function UpdateTargets(rows: map<Id, Relationship>, l: Id, k: Id): (updated: map<Id, Relationship>)
  {
    map r | r in rows :: if rows[r].target == l then rows[r].(target := k) else rows[r]
  }

  lemma SourcesThenTargets(rows: map<Id, Relationship>, l: Id, k: Id)
    ensures UpdateTargets(UpdateSources(rows, l, k), l, k) == MovedRelationships(rows, map[l := k])
  {
    var both, moved := UpdateTargets(UpdateSources(rows, l, k), l, k), MovedRelationships(rows, map[l := k]);
    forall r | r in rows ensures both[r] == moved[r] {
    }
  }

  function UpdateFacts(rows: map<Id, Fact>, l: Id, k: Id): (updated: map<Id, Fact>)
    ensures updated == MovedFacts(rows, map[l := k])
  {
    map r | r in rows :: if rows[r].entity == l then rows[r].(entity := k) else rows[r]
  }

  /** `array_replace(entity_ids, l, k)` where l occurs in the array. */
  function ArrayReplace(ids: Option<seq<Id>>, l: Id, k: Id): (replaced: Option<seq<Id>>)
    ensures replaced == MoveAll(map[l := k], ids)
  {
    match ids
    case None => None
    case Some(s) =>
      var moved := seq(|s|, i requires 0 <= i < |s| => if s[i] == l then k else s[i]);
      assert moved == MoveAll(map[l := k], ids).value;
      if l in s then Some(moved) else (assert moved == s; ids)
  }

  function ReplaceInArrays(rows: map<Id, Option<seq<Id>>>, l: Id, k: Id): (updated: map<Id, Option<seq<Id>>>)
    ensures updated == MovedMemories(rows, map[l := k])
  {
    map r | r in rows :: ArrayReplace(rows[r], l, k)
  }

  // ----- progress, cluster by cluster --------------------------------------

  /** A keeper is kept by itself. */
  ghost predicate Settles(k: map<Id, Id>) {
    k.Values <= k.Keys && forall x {:trigger k[x]} | x in k.Values && x in k :: k[x] == x
  }

  /** The entities of S that lose, each with the keeper it gives way to. */
  ghost function Losers(k: map<Id, Id>, S: set<Id>): map<Id, Id> {
    map x | x in k && x in S && k[x] != x :: k[x]
  }

  ghost function Surviving(t: Tables, k: map<Id, Id>, S: set<Id>): map<Id, Entity> {
    map x | x in t.entities && x !in Losers(k, S) :: t.entities[x]
  }

  /** The tables once every cluster inside S has been dealt with. */
  ghost function Progress(t: Tables, k: map<Id, Id>, S: set<Id>): Tables {
    Repointed(t, Losers(k, S)).(entities := Surviving(t, k, S))
  }

  lemma KeepersSettle(t: Tables)
    ensures Settles(Keepers(t))
  {
    forall x | x in Keepers(t).Values ensures x in Keepers(t) && Keepers(t)[x] == x {
      var y :| y in t.entities && Keepers(t)[y] == x;
      KeeperOfKeeper(t, y);
    }
  }

  /** A keeper never loses. */
  lemma KeepersSurvive(k: map<Id, Id>, S: set<Id>, x: Id)
    requires Settles(k) && x in Losers(k, S)
    ensures Losers(k, S)[x] !in Losers(k, S)
  {
    assert k[x] in k.Values;
  }

  lemma OneMoreLoser(t: Tables, k: map<Id, Id>, S: set<Id>, l: Id)
    requires Settles(k) && l in k && k[l] != l && l !in S
    ensures Repointed(Repointed(t, Losers(k, S)), map[l := k[l]]) == Repointed(t, Losers(k, S + {l}))
  {
    assert l !in Losers(k, S).Values;
    RepointingComposes(t, Losers(k, S), l, k[l]);
    assert Losers(k, S + {l}) == Losers(k, S)[l := k[l]];
  }

  /** After re-pointing, no row names a loser, so deleting the losers cascades to nothing. */
  lemma DeletingLosersCascadesNowhere(t: Tables, k: map<Id, Id>, S: set<Id>, entities: map<Id, Entity>, ids: set<Id>)
    requires Settles(k) && ids <= Losers(k, S).Keys
    ensures var moved := Repointed(t, Losers(k, S)).(entities := entities);
      DeleteEntities(moved, ids) == moved.(entities := map x | x in entities && x !in ids :: entities[x])
  {
    var to := Losers(k, S);
    forall x ensures Move(to, x) !in ids {
      if x in to { KeepersSurvive(k, S, x); }
    }
    var moved := Repointed(t, to).(entities := entities);
    NothingToCascade(moved, ids);
  }

  lemma NothingToCascade(t: Tables, ids: set<Id>)
    requires forall r | r in t.aliases :: t.aliases[r].entity !in ids
    requires forall r | r in t.relationships :: t.relationships[r].source !in ids && t.relationships[r].target !in ids
    requires forall r | r in t.facts :: t.facts[r].entity !in ids
    ensures DeleteEntities(t, ids) == t.(entities := map x | x in t.entities && x !in ids :: t.entities[x])
  {
    assert DeleteEntities(t, ids).aliases == t.aliases;
    assert DeleteEntities(t, ids).relationships == t.relationships;
    assert DeleteEntities(t, ids).facts == t.facts;
  }

  class Database {
    var tables: Tables

    constructor (tables: Tables)
      ensures this.tables == tables
    {
      this.tables := tables;
    }

    /** The five UPDATE statements that re-point one loser. */
    method Repoint(loser: Id, keeper: Id)
      modifies this
      ensures tables == Repointed(old(tables), map[loser := keeper])
    {
      tables := tables.(aliases := UpdateAliases(tables.aliases, loser, keeper));
      tables := tables.(relationships := UpdateSources(tables.relationships, loser, keeper));
      tables := tables.(relationships := UpdateTargets(tables.relationships, loser, keeper));
      SourcesThenTargets(old(tables).relationships, loser, keeper);
      tables := tables.(facts := UpdateFacts(tables.facts, loser, keeper));
      tables := tables.(memories := ReplaceInArrays(tables.memories, loser, keeper));
    }

    /** DELETE FROM entities, with its cascade. */
    method Delete(ids: set<Id>)
      modifies this
      ensures tables == DeleteEntities(old(tables), ids)
    {
      tables := DeleteEntities(tables, ids);
    }

    /** Re-points a cluster's losers to its keeper one at a time. */
    method RepointLosers(losers: set<Id>, keeper: Id, ghost t: Tables, ghost k: map<Id, Id>, ghost S: set<Id>)
      requires tables == Progress(t, k, S) && Settles(k) && losers !! S
      requires forall l | l in losers :: l in k && l != keeper && k[l] == keeper
      modifies this
      ensures tables == Repointed(t, Losers(k, S + losers)).(entities := Surviving(t, k, S))
    {
      var todo := losers;
      assert S + (losers - todo) == S;
      while todo != {}
        invariant todo <= losers
        invariant tables == Repointed(t, Losers(k, S + (losers - todo))).(entities := Surviving(t, k, S))
        decreases todo
      {
        var loser :| loser in todo;
        ghost var done := S + (losers - todo);
        OneMoreLoser(t, k, done, loser);
        RepointingKeepsEntities(t, Losers(k, done), Surviving(t, k, S), map[loser := keeper]);
        Repoint(loser, keeper);
        todo := todo - {loser};
        assert S + (losers - todo) == done + {loser};
      }
      assert losers - todo == losers;
    }

    /** Picks one cluster's keeper, re-points its losers one by one, then deletes them. */
    method MergeCluster(created: map<Id, Entity>, members: seq<Id>, ghost t: Tables, ghost k: map<Id, Id>, ghost S: set<Id>)
      requires created == t.entities && KeeperTable(t, k) && Settles(k)
      requires tables == Progress(t, k, S)
      requires IsCluster(t, members) && forall x | x in members :: x !in S
      modifies this
      ensures tables == Progress(t, k, S + Elements(members))
    {
      if |members| < 2 {
        LoneMemberKeepsItself(t, k, members);
        assert Losers(k, S + Elements(members)) == Losers(k, S);
        return;
      }
      var keeper := Oldest(created, members);
      OldestIsKeeper(t, k, members, keeper);
      var losers := set m | m in members && m != keeper;
      RepointLosers(losers, keeper, t, k, S);
      LosersOfCluster(k, S, losers, keeper, members);
      DeletingLosersCascadesNowhere(t, k, S + losers, Surviving(t, k, S), losers);
      Delete(losers);
      ClusterDone(t, k, S, losers, keeper, members);
    }

    /** Every cluster in turn. */
    method MergeClusters(clusters: map<Id, seq<Id>>, ghost roots: map<Id, Id>, ghost k: map<Id, Id>)
      requires roots.Keys == tables.entities.Keys && ExactClusters(tables, roots) && ClustersOf(roots, clusters)
      requires KeeperTable(tables, k) && Settles(k)
      modifies this
      ensures tables == Progress(old(tables), k, old(tables).entities.Keys)
    {
      ghost var t := tables;
      var created := tables.entities;
      var todo := clusters.Keys;
      NothingDoneYet(t, k);
      assert Settled(roots, todo) == {};
      while todo != {}
        invariant todo <= clusters.Keys
        invariant tables == Progress(t, k, Settled(roots, todo))
        decreases todo
      {
        var c :| c in todo;
        ClusterIsComponent(t, roots, clusters, c);
        SettleOne(roots, clusters, todo, c);
        MergeCluster(created, clusters[c], t, k, Settled(roots, todo));
        todo := todo - {c};
      }
      assert Settled(roots, {}) == t.entities.Keys;
    }

    /** The four de-duplication statements. */
    method Deduplicate(aliasCtid: RowId -> nat, relCtid: Id -> nat)
      modifies this
      ensures tables.entities == old(tables).entities && tables.facts == old(tables).facts
      ensures tables.aliases == DistinctAliases(old(tables).aliases, aliasCtid)
      ensures tables.relationships == DistinctTriples(WithoutLoops(old(tables).relationships), relCtid)
      ensures AllAggregated(old(tables).memories, tables.memories)
    {
      tables := tables.(aliases := DistinctAliases(tables.aliases, aliasCtid));
      tables := tables.(relationships := WithoutLoops(tables.relationships));
      tables := tables.(relationships := DistinctTriples(tables.relationships, relCtid));
      var memories := AggregateMemories(tables.memories);
      tables := tables.(memories := memories);
    }

    /** The merge: clusters first, then one cluster at a time, then the de-duplication passes.
        The two row orders say where the rows lie when the deletes run. */
    method MergeDuplicateEntities(aliasCtid: RowId -> nat, relCtid: Id -> nat)
      requires ForeignKeys(tables)
      modifies this
      ensures MergeOutcome(old(tables), tables, aliasCtid, relCtid)
    {
      ghost var t := tables;
      var sets := ClusterEntities(tables);
      ghost var roots := sets.roots;
      var clusters := CollectClusters(sets);
      KeepersSettle(t);
      MergeClusters(clusters, roots, Keepers(t));
      EverythingSettled(t, Keepers(t));
      Deduplicate(aliasCtid, relCtid);
    }
  }

  method AggregateMemories(rows: map<Id, Option<seq<Id>>>) returns (agg: map<Id, Option<seq<Id>>>)
    ensures AllAggregated(rows, agg)
  {
    agg := rows;
    var todo := rows.Keys;
    while todo != {}
      invariant todo <= rows.Keys == agg.Keys
      invariant forall r | r in todo :: agg[r] == rows[r]
      invariant forall r | r in rows && r !in todo :: Aggregated(rows[r], agg[r])
      decreases todo
    {
      var r :| r in todo;
      var one := AggregateDistinct(rows[r]);
      agg, todo := agg[r := one], todo - {r};
    }
  }

  ghost function Elements(ids: seq<Id>): set<Id> {
    set x | x in ids
  }

  /** members are one whole component, each entity once. */
  ghost predicate IsCluster(t: Tables, members: seq<Id>) {
    && members != []
    && (forall x | x in members :: x in t.entities)
    && (forall x, y | x in members && y in t.entities :: Linked(t, x, y) <==> y in members)
    && forall i, j | 0 <= i < j < |members| :: members[i] != members[j]
  }

  /** `min(members, key=...)`: the least creation stamp. */
  method Oldest(created: map<Id, Entity>, members: seq<Id>) returns (keeper: Id)
    requires members != [] && forall x | x in members :: x in created
    ensures keeper in members
    ensures forall x | x in members ::
      x == keeper || Before(Stamp(created[keeper].createdAt, keeper.text), Stamp(created[x].createdAt, x.text))
  {
    keeper := members[0];
    for i := 1 to |members|
      invariant keeper in members
      invariant forall j | 0 <= j < i ::
        || members[j] == keeper
        || Before(Stamp(created[keeper].createdAt, keeper.text), Stamp(created[members[j]].createdAt, members[j].text))
    {
      var x := members[i];
      var k, s := Stamp(created[keeper].createdAt, keeper.text), Stamp(created[x].createdAt, x.text);
      BeforeTotal(s, k);
      if Before(s, k) {
        forall j | 0 <= j < i ensures Before(s, Stamp(created[members[j]].createdAt, members[j].text)) {
          var y := Stamp(created[members[j]].createdAt, members[j].text);
          if members[j] != keeper { BeforeTransitive(s, k, y); }
        }
        keeper := x;
      }
    }
  }

  lemma OldestIsKeeper(t: Tables, k: map<Id, Id>, members: seq<Id>, keeper: Id)
    requires IsCluster(t, members) && keeper in members && KeeperTable(t, k)
    requires forall x | x in members :: x == keeper || Before(StampOf(t, keeper), StampOf(t, x))
    ensures forall x | x in members :: x in k && k[x] == keeper
  {
    forall x | x in members ensures x in k && k[x] == keeper {
      assert Linked(t, x, keeper);
      assert IsKeeper(t, x, keeper);
      assert IsKeeper(t, x, k[x]);
      KeeperUnique(t, x, k[x], keeper);
    }
  }

  lemma LoneMemberKeepsItself(t: Tables, k: map<Id, Id>, members: seq<Id>)
    requires IsCluster(t, members) && |members| < 2 && KeeperTable(t, k)
    ensures forall x | x in members :: x in k && k[x] == x
  {
    var x := members[0];
    assert members == [x];
    assert IsKeeper(t, x, k[x]);
    assert k[x] in members;
  }

  lemma LosersOfCluster(k: map<Id, Id>, S: set<Id>, losers: set<Id>, keeper: Id, members: seq<Id>)
    requires forall x | x in members :: x in k && k[x] == keeper
    requires losers == set m | m in members && m != keeper
    ensures losers <= Losers(k, S + losers).Keys
  {
  }

  lemma RepointingKeepsEntities(t: Tables, done: map<Id, Id>, entities: map<Id, Entity>, to: map<Id, Id>)
    ensures Repointed(Repointed(t, done).(entities := entities), to) == Repointed(Repointed(t, done), to).(entities := entities)
  {
  }

  lemma ClusterDone(t: Tables, k: map<Id, Id>, S: set<Id>, losers: set<Id>, keeper: Id, members: seq<Id>)
    requires k.Keys == t.entities.Keys && forall x | x in members :: x in k && k[x] == keeper
    requires losers == set m | m in members && m != keeper
    ensures Repointed(t, Losers(k, S + losers)).(
              entities := map x | x in Surviving(t, k, S) && x !in losers :: Surviving(t, k, S)[x])
         == Progress(t, k, S + Elements(members))
  {
    assert Losers(k, S + losers) == Losers(k, S + Elements(members));
    assert (map x | x in Surviving(t, k, S) && x !in losers :: Surviving(t, k, S)[x]) == Surviving(t, k, S + Elements(members));
  }

  /** The entities whose cluster is no longer waiting. */
  ghost function Settled(roots: map<Id, Id>, todo: set<Id>): set<Id> {
    set x | x in roots && roots[x] !in todo
  }

  lemma NothingDoneYet(t: Tables, k: map<Id, Id>)
    ensures Progress(t, k, {}) == t
  {
    assert Losers(k, {}) == map[];
    RepointingNobody(t);
    assert Surviving(t, k, {}) == t.entities;
  }

  lemma RepointingNobody(t: Tables)
    ensures Repointed(t, map[]) == t
  {
    var p := Repointed(t, map[]);
    assert p.aliases == t.aliases;
    assert p.relationships == t.relationships;
    assert p.facts == t.facts;
    forall r | r in t.memories ensures p.memories[r] == t.memories[r] {
      if t.memories[r].Some? { assert p.memories[r].value == t.memories[r].value; }
    }
    assert p.memories == t.memories;
  }

  lemma ClusterIsComponent(t: Tables, roots: map<Id, Id>, clusters: map<Id, seq<Id>>, c: Id)
    requires roots.Keys == t.entities.Keys && ExactClusters(t, roots) && ClustersOf(roots, clusters) && c in clusters
    ensures IsCluster(t, clusters[c])
  {
    var members := clusters[c];
    assert MembersOf(roots, c, members);
    var x :| x in roots && roots[x] == c;
    assert x in members;
  }

  lemma SettleOne(roots: map<Id, Id>, clusters: map<Id, seq<Id>>, todo: set<Id>, c: Id)
    requires ClustersOf(roots, clusters) && c in todo && c in clusters
    ensures Settled(roots, todo - {c}) == Settled(roots, todo) + Elements(clusters[c])
  {
    assert MembersOf(roots, c, clusters[c]);
  }

  lemma EverythingSettled(t: Tables, k: map<Id, Id>)
    requires k.Keys == t.entities.Keys
    ensures var done := Progress(t, k, t.entities.Keys);
      && done.(entities := t.entities) == Repointed(t, k)
      && done.entities == Kept(t, k)
  {
    MovesAgree(t, Losers(k, t.entities.Keys), k);
  }

  /** Two maps that move every id alike re-point the tables alike. */
  lemma MovesAgree(t: Tables, a: map<Id, Id>, b: map<Id, Id>)
    requires forall x :: Move(a, x) == Move(b, x)
    ensures Repointed(t, a) == Repointed(t, b)
  {
    AliasesAgree(t.aliases, a, b);
    RelationshipsAgree(t.relationships, a, b);
    FactsAgree(t.facts, a, b);
    MemoriesAgree(t.memories, a, b);
  }

  lemma FactsAgree(rows: map<Id, Fact>, a: map<Id, Id>, b: map<Id, Id>)
    requires forall x :: Move(a, x) == Move(b, x)
    ensures MovedFacts(rows, a) == MovedFacts(rows, b)
  {
    assert forall r | r in rows :: MovedFacts(rows, a)[r] == MovedFacts(rows, b)[r];
  }

  lemma AliasesAgree(rows: map<RowId, Alias>, a: map<Id, Id>, b: map<Id, Id>)
    requires forall x :: Move(a, x) == Move(b, x)
    ensures MovedAliases(rows, a) == MovedAliases(rows, b)
  {
    assert forall r | r in rows :: MovedAliases(rows, a)[r] == MovedAliases(rows, b)[r];
  }

  lemma RelationshipsAgree(rows: map<Id, Relationship>, a: map<Id, Id>, b: map<Id, Id>)
    requires forall x :: Move(a, x) == Move(b, x)
    ensures MovedRelationships(rows, a) == MovedRelationships(rows, b)
  {
    assert forall r | r in rows :: MovedRelationships(rows, a)[r] == MovedRelationships(rows, b)[r];
  }

  lemma MemoriesAgree(rows: map<Id, Option<seq<Id>>>, a: map<Id, Id>, b: map<Id, Id>)
    requires forall x :: Move(a, x) == Move(b, x)
    ensures MovedMemories(rows, a) == MovedMemories(rows, b)
  {
    forall r | r in rows ensures MoveAll(a, rows[r]) == MoveAll(b, rows[r]) {
      if rows[r].Some? { assert MoveAll(a, rows[r]).value == MoveAll(b, rows[r]).value; }
    }
  }

  /** `array_agg(DISTINCT e)`, in order of first appearance. */
  method AggregateDistinct(ids: Option<seq<Id>>) returns (agg: Option<seq<Id>>)
    ensures Aggregated(ids, agg)
  {
    if ids == None || ids.value == [] { return None; }
    var distinct: seq<Id> := [];
    for i := 0 to |ids.value|
      invariant forall x :: x in distinct <==> x in ids.value[..i]
      invariant NoRepeats(distinct)
    {
      assert ids.value[..i + 1] == ids.value[..i] + [ids.value[i]];
      if ids.value[i] !in distinct { distinct := distinct + [ids.value[i]]; }
    }
    assert ids.value[..|ids.value|] == ids.value;
    agg := Some(distinct);
  }
}
