/** Grouping entities by name and by strong identifier, and joining each group in the forest. */
module EntityClusters {
  import opened UnionFind
  import opened EntityTables

  // ----- grouping into dictionaries of lists -------------------------------

  /** The values filed under key k, in arrival order. */
  ghost function FiledUnder<K, V>(rows: seq<(K, V)>, k: K): seq<V> {
    if rows == [] then []
    else (if rows[0].0 == k then [rows[0].1] else []) + FiledUnder(rows[1..], k)
  }

  lemma {:induction false} FiledUnderMembers<K, V>(rows: seq<(K, V)>, k: K, v: V)
    ensures v in FiledUnder(rows, k) <==> (k, v) in rows
  {
    if rows != [] {
      FiledUnderMembers(rows[1..], k, v);
      assert rows == [rows[0]] + rows[1..];
      assert (k, v) == rows[0] <==> rows[0].0 == k && rows[0].1 == v;
    }
  }

  lemma {:induction false} FiledUnderSnoc<K, V>(rows: seq<(K, V)>, row: (K, V), k: K)
    ensures FiledUnder(rows + [row], k) == FiledUnder(rows, k) + (if row.0 == k then [row.1] else [])
  {
    if rows != [] {
      FiledUnderSnoc(rows[1..], row, k);
      assert (rows + [row])[1..] == rows[1..] + [row];
    }
  }

  /** Each key holds exactly the values filed under it, and no key is empty. */
  ghost predicate GroupsOf<K(!new), V>(rows: seq<(K, V)>, groups: map<K, seq<V>>) {
    && (forall k | k in groups :: groups[k] == FiledUnder(rows, k) && groups[k] != [])
    && (forall k | k !in groups :: FiledUnder(rows, k) == [])
  }

  method GroupByKey<K(==, !new), V>(rows: seq<(K, V)>) returns (groups: map<K, seq<V>>)
    ensures GroupsOf(rows, groups)
  {
    groups := map[];
    for i := 0 to |rows|
      invariant GroupsOf(rows[..i], groups)
    {
      var (k, v) := rows[i];
      ghost var before := groups;
      groups := groups[k := (if k in groups then groups[k] else []) + [v]];
      assert GroupsOf(rows[..i + 1], groups) by {
        assert rows[..i + 1] == rows[..i] + [rows[i]];
        forall k' ensures FiledUnder(rows[..i + 1], k') == FiledUnder(rows[..i], k') + (if k == k' then [v] else []) {
          FiledUnderSnoc(rows[..i], rows[i], k');
        }
      }
    }
    assert rows[..|rows|] == rows;
  }

  // ----- joining every group ------------------------------------------------

  /** The nodes of ids that stand before position n hang under one root. */
  ghost predicate OneRoot<V>(roots: map<V, V>, ids: seq<V>, n: nat)
    requires n <= |ids|
  {
    n > 0 ==> ids[0] in roots && forall i | 0 <= i < n :: ids[i] in roots && roots[ids[i]] == roots[ids[0]]
  }

  lemma OneRootCoarsened<V(!new)>(before: map<V, V>, after: map<V, V>, ids: seq<V>, n: nat)
    requires n <= |ids| && OneRoot(before, ids, n) && Coarsened(before, after)
    ensures OneRoot(after, ids, n)
  {
  }

  lemma JoinGrowsGroup<V(!new)>(roots: map<V, V>, ids: seq<V>, n: nat)
    requires 0 < n < |ids| && OneRoot(roots, ids, n) && ids[n] in roots
    ensures OneRoot(Joined(roots, ids[0], ids[n]), ids, n + 1)
  {
  }

  lemma CoarsenedTransitive<V(!new)>(a: map<V, V>, b: map<V, V>, c: map<V, V>)
    requires Coarsened(a, b) && Coarsened(b, c)
    ensures Coarsened(a, c)
  {
  }

  /** `union(ids[0], other)` along one group. */
  method UnionGroup<V(==, !new)>(sets: DisjointSets<V>, ids: seq<V>, ghost E: set<(V, V)>)
    requires sets.Valid() && Sound(sets.roots, E) && ids != []
    requires forall i | 0 <= i < |ids| :: ids[i] in sets.roots && Connected(E, ids[0], ids[i])
    modifies sets
    ensures sets.Valid() && Sound(sets.roots, E) && Coarsened(old(sets.roots), sets.roots)
    ensures OneRoot(sets.roots, ids, |ids|)
  {
    for i := 1 to |ids|
      invariant sets.Valid() && Sound(sets.roots, E) && Coarsened(old(sets.roots), sets.roots)
      invariant OneRoot(sets.roots, ids, i)
    {
      ghost var before := sets.roots;
      JoinedSound(before, E, ids[0], ids[i]);
      sets.Union(ids[0], ids[i]);
      assert sets.roots == Joined(before, ids[0], ids[i]);
      JoinGrowsGroup(before, ids, i);
      CoarsenedTransitive(old(sets.roots), before, sets.roots);
    }
  }

  /** Every group in turn: afterwards each has one root, and only nodes connected by E share one. */
  method UnionGroups<K(==), V(==, !new)>(sets: DisjointSets<V>, groups: map<K, seq<V>>, ghost E: set<(V, V)>)
    requires sets.Valid() && Sound(sets.roots, E)
    requires forall k | k in groups :: groups[k] != []
    requires forall k | k in groups :: forall i | 0 <= i < |groups[k]| ::
               groups[k][i] in sets.roots && Connected(E, groups[k][0], groups[k][i])
    modifies sets
    ensures sets.Valid() && Sound(sets.roots, E) && Coarsened(old(sets.roots), sets.roots)
    ensures forall k | k in groups :: OneRoot(sets.roots, groups[k], |groups[k]|)
  {
    var todo := groups.Keys;
    while todo != {}
      invariant todo <= groups.Keys
      invariant sets.Valid() && Sound(sets.roots, E) && Coarsened(old(sets.roots), sets.roots)
      invariant forall k | k in groups && k !in todo :: OneRoot(sets.roots, groups[k], |groups[k]|)
      decreases todo
    {
      var k :| k in todo;
      ghost var before := sets.roots;
      UnionGroup(sets, groups[k], E);
      CoarsenedTransitive(old(sets.roots), before, sets.roots);
      forall l | l in groups && l !in todo - {k} ensures OneRoot(sets.roots, groups[l], |groups[l]|) {
        if l != k { OneRootCoarsened(before, sets.roots, groups[l], |groups[l]|); }
      }
      todo := todo - {k};
    }
  }

  // ----- finding the clusters ----------------------------------------------

  /** A SELECT without ORDER BY: every key once, in no particular order. */
  method FetchAll<K(==)>(keys: set<K>) returns (rows: seq<K>)
    ensures forall k :: k in rows <==> k in keys
    ensures forall i, j | 0 <= i < j < |rows| :: rows[i] != rows[j]
  {
    rows := [];
    var todo := keys;
    while todo != {}
      invariant todo <= keys
      invariant forall k :: k in rows <==> k in keys - todo
      invariant forall i, j | 0 <= i < j < |rows| :: rows[i] != rows[j]
      decreases todo
    {
      var k :| k in todo;
      assert k !in rows;
      rows, todo := rows + [k], todo - {k};
    }
  }

  /** Two values filed under one key of a group dictionary end up with one root. */
  lemma FiledTogether<K(!new), V(!new)>(rows: seq<(K, V)>, groups: map<K, seq<V>>, roots: map<V, V>, k: K, x: V, y: V)
    requires GroupsOf(rows, groups) && (k, x) in rows && (k, y) in rows
    requires forall l | l in groups :: OneRoot(roots, groups[l], |groups[l]|)
    ensures x in roots && y in roots && roots[x] == roots[y]
  {
    FiledUnderMembers(rows, k, x);
    FiledUnderMembers(rows, k, y);
    assert k in groups;
    var i :| 0 <= i < |groups[k]| && groups[k][i] == x;
    var j :| 0 <= j < |groups[k]| && groups[k][j] == y;
  }

  type NameKey = (string, string, string)
  type AliasKey = (string, string)

  function NameKeyOf(e: Entity): NameKey { (e.workspace, e.kind, e.name) }

  function AliasKeyOf(a: Alias): AliasKey { (a.workspace, a.alias) }

  ghost predicate NameRows(t: Tables, rows: seq<(NameKey, Id)>) {
    && (forall row | row in rows :: row.1 in t.entities && row.0 == NameKeyOf(t.entities[row.1]))
    && (forall x | x in t.entities :: (NameKeyOf(t.entities[x]), x) in rows)
  }

  ghost predicate StrongRows(t: Tables, rows: seq<(AliasKey, Id)>) {
    && (forall row | row in rows :: exists r ::
          r in t.aliases && Strong(t.aliases[r]) && row == (AliasKeyOf(t.aliases[r]), t.aliases[r].entity))
    && (forall r | r in t.aliases && Strong(t.aliases[r]) :: (AliasKeyOf(t.aliases[r]), t.aliases[r].entity) in rows)
  }

  lemma NameGroupConnected(t: Tables, rows: seq<(NameKey, Id)>, groups: map<NameKey, seq<Id>>, k: NameKey, i: nat)
    requires NameRows(t, rows) && GroupsOf(rows, groups) && k in groups && i < |groups[k]|
    ensures groups[k][i] in t.entities && Connected(Links(t), groups[k][0], groups[k][i])
  {
    var x, y := groups[k][0], groups[k][i];
    FiledUnderMembers(rows, k, x);
    FiledUnderMembers(rows, k, y);
    assert (k, x) in rows && (k, y) in rows;
    assert Duplicates(t, x, y);
    assert (x, y) in Links(t);
    ConnectedEdge(Links(t), x, y);
  }

  lemma AliasGroupConnected(t: Tables, rows: seq<(AliasKey, Id)>, groups: map<AliasKey, seq<Id>>, k: AliasKey, i: nat)
    requires ForeignKeys(t) && StrongRows(t, rows) && GroupsOf(rows, groups) && k in groups && i < |groups[k]|
    ensures groups[k][i] in t.entities && Connected(Links(t), groups[k][0], groups[k][i])
  {
    var x, y := groups[k][0], groups[k][i];
    FiledUnderMembers(rows, k, x);
    FiledUnderMembers(rows, k, y);
    assert (k, x) in rows && (k, y) in rows;
    var r :| r in t.aliases && Strong(t.aliases[r]) && (k, x) == (AliasKeyOf(t.aliases[r]), t.aliases[r].entity);
    var s :| s in t.aliases && Strong(t.aliases[s]) && (k, y) == (AliasKeyOf(t.aliases[s]), t.aliases[s].entity);
    assert SameIdentifier(t.aliases[r], t.aliases[s]);
    assert Duplicates(t, x, y);
    assert (x, y) in Links(t);
    ConnectedEdge(Links(t), x, y);
  }

  /** Once the name groups and the alias groups each have one root, so has every duplicate pair. */
  lemma DuplicatesShareRoots(
      t: Tables, names: seq<(NameKey, Id)>, byName: map<NameKey, seq<Id>>,
      strong: seq<(AliasKey, Id)>, byAlias: map<AliasKey, seq<Id>>, roots: map<Id, Id>, x: Id, y: Id)
    requires NameRows(t, names) && GroupsOf(names, byName) && StrongRows(t, strong) && GroupsOf(strong, byAlias)
    requires forall k | k in byName :: OneRoot(roots, byName[k], |byName[k]|)
    requires forall k | k in byAlias :: OneRoot(roots, byAlias[k], |byAlias[k]|)
    requires x in t.entities && y in t.entities && Duplicates(t, x, y)
    ensures x in roots && y in roots && roots[x] == roots[y]
  {
    if SameName(t.entities[x], t.entities[y]) {
      var k := NameKeyOf(t.entities[x]);
      assert k == NameKeyOf(t.entities[y]);
      FiledTogether(names, byName, roots, k, x, y);
    } else {
      var r, s :| r in t.aliases && s in t.aliases && SameIdentifier(t.aliases[r], t.aliases[s])
        && t.aliases[r].entity == x && t.aliases[s].entity == y;
      var k := AliasKeyOf(t.aliases[r]);
      assert k == AliasKeyOf(t.aliases[s]);
      FiledTogether(strong, byAlias, roots, k, x, y);
    }
  }

  /** The rows the name loop groups. */
  method SelectNames(t: Tables, entityRows: seq<Id>) returns (names: seq<(NameKey, Id)>)
    requires forall x :: x in entityRows <==> x in t.entities
    ensures NameRows(t, names)
  {
    names := seq(|entityRows|, i requires 0 <= i < |entityRows| && entityRows[i] in t.entities =>
      (NameKeyOf(t.entities[entityRows[i]]), entityRows[i]));
    forall x | x in t.entities ensures (NameKeyOf(t.entities[x]), x) in names {
      var i :| 0 <= i < |entityRows| && entityRows[i] == x;
      assert names[i] == (NameKeyOf(t.entities[x]), x);
    }
  }

  /** The rows the alias loop groups: strong identifiers only. */
  method SelectStrong(t: Tables) returns (strong: seq<(AliasKey, Id)>)
    ensures StrongRows(t, strong)
  {
    var wanted := set r | r in t.aliases && Strong(t.aliases[r]);
    var rows := FetchAll(wanted);
    assert forall i | 0 <= i < |rows| :: rows[i] in rows && rows[i] in wanted;
    strong := seq(|rows|, i requires 0 <= i < |rows| && rows[i] in t.aliases =>
      (AliasKeyOf(t.aliases[rows[i]]), t.aliases[rows[i]].entity));
    forall r | r in t.aliases && Strong(t.aliases[r])
      ensures (AliasKeyOf(t.aliases[r]), t.aliases[r].entity) in strong
    {
      assert r in wanted && r in rows;
      var i :| 0 <= i < |rows| && rows[i] == r;
      assert strong[i] == (AliasKeyOf(t.aliases[r]), t.aliases[r].entity);
    }
    forall row | row in strong
      ensures exists r :: r in t.aliases && Strong(t.aliases[r]) && row == (AliasKeyOf(t.aliases[r]), t.aliases[r].entity)
    {
      var i :| 0 <= i < |strong| && strong[i] == row;
      var r := rows[i];
      assert r in t.aliases && Strong(t.aliases[r]);
    }
  }

  /** The name loop and the alias loop: afterwards two entities share a root exactly when a
      chain of shared names and shared strong identifiers links them. */
  method ClusterEntities(t: Tables) returns (sets: DisjointSets<Id>)
    requires ForeignKeys(t)
    ensures fresh(sets) && sets.Valid() && sets.roots.Keys == t.entities.Keys
    ensures ExactClusters(t, sets.roots)
  {
    var entityRows := FetchAll(t.entities.Keys);
    sets := RegisterAll(t, entityRows);

    var names := SelectNames(t, entityRows);
    var byName := GroupByKey(names);
    forall k, i | k in byName && 0 <= i < |byName[k]|
      ensures byName[k][i] in t.entities && Connected(Links(t), byName[k][0], byName[k][i])
    {
      NameGroupConnected(t, names, byName, k, i);
    }
    UnionGroups(sets, byName, Links(t));
    ghost var afterNames := sets.roots;

    var strong := SelectStrong(t);
    var byAlias := GroupByKey(strong);
    forall k, i | k in byAlias && 0 <= i < |byAlias[k]|
      ensures byAlias[k][i] in t.entities && Connected(Links(t), byAlias[k][0], byAlias[k][i])
    {
      AliasGroupConnected(t, strong, byAlias, k, i);
    }
    UnionGroups(sets, byAlias, Links(t));
    JoinedGroupsAreExact(t, names, byName, strong, byAlias, afterNames, sets.roots);
  }

  ghost predicate ExactClusters(t: Tables, roots: map<Id, Id>)
    requires roots.Keys == t.entities.Keys
  {
    forall x, y | x in t.entities && y in t.entities :: roots[x] == roots[y] <==> Linked(t, x, y)
  }

  lemma JoinedGroupsAreExact(
      t: Tables, names: seq<(NameKey, Id)>, byName: map<NameKey, seq<Id>>,
      strong: seq<(AliasKey, Id)>, byAlias: map<AliasKey, seq<Id>>, afterNames: map<Id, Id>, roots: map<Id, Id>)
    requires NameRows(t, names) && GroupsOf(names, byName) && StrongRows(t, strong) && GroupsOf(strong, byAlias)
    requires roots.Keys == t.entities.Keys && Sound(roots, Links(t)) && Coarsened(afterNames, roots)
    requires forall k | k in byName :: OneRoot(afterNames, byName[k], |byName[k]|)
    requires forall k | k in byAlias :: OneRoot(roots, byAlias[k], |byAlias[k]|)
    ensures ExactClusters(t, roots)
  {
    forall k | k in byName ensures OneRoot(roots, byName[k], |byName[k]|) {
      OneRootCoarsened(afterNames, roots, byName[k], |byName[k]|);
    }
    forall e | e in Links(t) ensures e.0 in roots && e.1 in roots && roots[e.0] == roots[e.1] {
      DuplicatesShareRoots(t, names, byName, strong, byAlias, roots, e.0, e.1);
    }
    forall x, y | x in t.entities && y in t.entities ensures roots[x] == roots[y] <==> Linked(t, x, y) {
      RootsAreComponents(roots, Links(t), x, y);
    }
  }

  /** `find(r.entity_id)` for every row: each entity is its own root. */
  method RegisterAll(t: Tables, entityRows: seq<Id>) returns (sets: DisjointSets<Id>)
    requires forall x :: x in entityRows <==> x in t.entities
    ensures fresh(sets) && sets.Valid() && sets.roots.Keys == t.entities.Keys
    ensures Sound(sets.roots, Links(t))
  {
    sets := new DisjointSets<Id>();
    for i := 0 to |entityRows|
      invariant sets.Valid() && fresh(sets)
      invariant OwnRoots(sets.roots, entityRows[..i])
    {
      assert entityRows[..i + 1] == entityRows[..i] + [entityRows[i]];
      OneMoreOwnRoot(sets.roots, entityRows[..i], entityRows[i]);
      var _ := sets.Find(entityRows[i]);
    }
    assert entityRows[..|entityRows|] == entityRows;
    forall x, y | x in sets.roots && y in sets.roots && sets.roots[x] == sets.roots[y]
      ensures Connected(Links(t), x, y)
    {
      ConnectedReflexive(Links(t), x);
    }
  }

  ghost predicate OwnRoots(roots: map<Id, Id>, ids: seq<Id>) {
    && (forall x :: x in roots <==> x in ids)
    && (forall x | x in roots :: roots[x] == x)
  }

  lemma OneMoreOwnRoot(roots: map<Id, Id>, ids: seq<Id>, x: Id)
    requires OwnRoots(roots, ids)
    ensures OwnRoots(WithNode(roots, x), ids + [x])
  {
  }

  /** The nodes under root c, each once. */
  ghost predicate MembersOf(roots: map<Id, Id>, c: Id, members: seq<Id>) {
    && (forall x :: x in members <==> x in roots && roots[x] == c)
    && (forall i, j | 0 <= i < j < |members| :: members[i] != members[j])
  }

  /** The members of each cluster, filed under its root. */
  ghost predicate ClustersOf(roots: map<Id, Id>, clusters: map<Id, seq<Id>>) {
    && clusters.Keys == roots.Values
    && (forall c | c in clusters :: MembersOf(roots, c, clusters[c]))
  }

  /** `clusters.setdefault(find(eid), []).append(eid)` for every node. */
  method CollectClusters(sets: DisjointSets<Id>) returns (clusters: map<Id, seq<Id>>)
    requires sets.Valid()
    modifies sets
    ensures sets.Valid() && sets.roots == old(sets.roots)
    ensures ClustersOf(sets.roots, clusters)
  {
    var ids := FetchAll(sets.parent.Keys);
    ghost var roots := sets.roots;
    assert forall x :: x in ids <==> x in roots;
    var rows: seq<(Id, Id)> := [];
    for i := 0 to |ids|
      invariant sets.Valid() && sets.roots == roots
      invariant FoundRoots(roots, ids, rows) && |rows| == i
    {
      assert ids[i] in ids;
      var root := sets.Find(ids[i]);
      OneMoreFoundRoot(roots, ids, rows, root);
      rows := rows + [(root, ids[i])];
    }
    clusters := GroupByKey(rows);
    FiledByRoot(roots, ids, rows, clusters);
  }

  /** Row j records the root of the j-th node. */
  ghost predicate FoundRoots(roots: map<Id, Id>, ids: seq<Id>, rows: seq<(Id, Id)>) {
    |rows| <= |ids| && forall j | 0 <= j < |rows| :: ids[j] in roots && rows[j] == (roots[ids[j]], ids[j])
  }

  lemma OneMoreFoundRoot(roots: map<Id, Id>, ids: seq<Id>, rows: seq<(Id, Id)>, root: Id)
    requires FoundRoots(roots, ids, rows) && |rows| < |ids|
    requires ids[|rows|] in roots && roots[ids[|rows|]] == root
    ensures FoundRoots(roots, ids, rows + [(root, ids[|rows|])])
  {
  }

  lemma FiledByRoot(roots: map<Id, Id>, ids: seq<Id>, rows: seq<(Id, Id)>, clusters: map<Id, seq<Id>>)
    requires forall x :: x in ids <==> x in roots
    requires forall i, j | 0 <= i < j < |ids| :: ids[i] != ids[j]
    requires |rows| == |ids| && FoundRoots(roots, ids, rows)
    requires GroupsOf(rows, clusters)
    ensures ClustersOf(roots, clusters)
  {
    forall c, x ensures x in FiledUnder(rows, c) <==> x in roots && roots[x] == c {
      FiledUnderRoot(roots, ids, rows, c, x);
    }
    assert clusters.Keys == roots.Values by {
      forall c ensures c in clusters <==> c in roots.Values {
        if c in clusters {
          var x := clusters[c][0];
          assert x in FiledUnder(rows, c);
          assert x in roots && roots[x] == c;
        }
        if c in roots.Values {
          var x :| x in roots && roots[x] == c;
          assert x in FiledUnder(rows, c);
        }
      }
    }
    forall c | c in clusters ensures MembersOf(roots, c, clusters[c]) {
      FiledUnderDistinct(rows, c);
      assert clusters[c] == FiledUnder(rows, c);
    }
  }

  lemma FiledUnderRoot(roots: map<Id, Id>, ids: seq<Id>, rows: seq<(Id, Id)>, c: Id, x: Id)
    requires forall x :: x in ids <==> x in roots
    requires |rows| == |ids| && FoundRoots(roots, ids, rows)
    ensures x in FiledUnder(rows, c) <==> x in roots && roots[x] == c
  {
    FiledUnderMembers(rows, c, x);
    if x in roots && roots[x] == c {
      var i :| 0 <= i < |ids| && ids[i] == x;
      assert rows[i] == (c, x);
    }
    if (c, x) in rows {
      var i :| 0 <= i < |rows| && rows[i] == (c, x);
      assert ids[i] in roots;
    }
  }

  lemma {:induction false} FiledUnderDistinct<K, V>(rows: seq<(K, V)>, k: K)
    requires forall i, j | 0 <= i < j < |rows| :: rows[i].1 != rows[j].1
    ensures forall i, j | 0 <= i < j < |FiledUnder(rows, k)| :: FiledUnder(rows, k)[i] != FiledUnder(rows, k)[j]
  {
    if rows != [] {
      FiledUnderDistinct(rows[1..], k);
      FiledUnderMembers(rows[1..], k, rows[0].1);
      assert forall j | 0 <= j < |rows[1..]| :: rows[1..][j] == rows[j + 1];
    }
  }
}
