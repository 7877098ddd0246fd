/** The five tables a merge touches, which entities count as duplicates of each other, and
    which one of them is kept. */
module EntityTables {
  import opened Orders
  import opened UnionFind

  /** A primary key; ids are compared as text only to break ties between equally old rows. */
  datatype Id = Id(text: string)

  /** The autoincrement key of an alias row. */
  datatype RowId = RowId(number: int)

  datatype Entity = Entity(workspace: string, kind: string, name: string, createdAt: int)
  datatype Alias = Alias(entity: Id, workspace: string, alias: string, kind: string)
  datatype Relationship = Relationship(source: Id, relation: string, target: Id)
  datatype Fact = Fact(entity: Id, attribute: string, validFrom: int, validTo: Option<int>, supersededBy: Option<Id>)

  /** Every table is keyed by its primary key. A memory row holds only its nullable id array. */
  datatype Tables = Tables(
    entities: map<Id, Entity>,
    aliases: map<RowId, Alias>,
    relationships: map<Id, Relationship>,
    facts: map<Id, Fact>,
    memories: map<Id, Option<seq<Id>>>)

  /** The foreign keys the schema enforces on aliases, relationships and facts. */
  ghost predicate ForeignKeys(t: Tables) {
    && (forall r | r in t.aliases :: t.aliases[r].entity in t.entities)
    && (forall r | r in t.relationships :: t.relationships[r].source in t.entities && t.relationships[r].target in t.entities)
    && (forall r | r in t.facts :: t.facts[r].entity in t.entities)
  }

  /** Email addresses and handles identify one entity; plain names do not. */
  predicate Strong(a: Alias) {
    a.kind == "email" || a.kind == "handle"
  }

  ghost predicate SameName(e: Entity, f: Entity) {
    e.workspace == f.workspace && e.kind == f.kind && e.name == f.name
  }

  ghost predicate SameIdentifier(a: Alias, b: Alias) {
    Strong(a) && Strong(b) && a.workspace == b.workspace && a.alias == b.alias
  }

  /** x and y share a name, or one strong identifier was recorded for both. */
  ghost predicate Duplicates(t: Tables, x: Id, y: Id)
    requires x in t.entities && y in t.entities
  {
    || SameName(t.entities[x], t.entities[y])
    || exists r, s :: r in t.aliases && s in t.aliases && SameIdentifier(t.aliases[r], t.aliases[s])
         && t.aliases[r].entity == x && t.aliases[s].entity == y
  }

  ghost function Links(t: Tables): set<(Id, Id)> {
    set x, y | x in t.entities && y in t.entities && Duplicates(t, x, y) :: (x, y)
  }

  /** x and y end up in one cluster: the closure of Duplicates. */
  ghost predicate Linked(t: Tables, x: Id, y: Id) {
    Connected(Links(t), x, y)
  }

  function StampOf(t: Tables, x: Id): Stamp
    requires x in t.entities
  {
    Stamp(t.entities[x].createdAt, x.text)
  }

  /** k is the oldest entity linked to x, the id breaking ties. */
  ghost predicate IsKeeper(t: Tables, x: Id, k: Id) {
    && k in t.entities && Linked(t, x, k)
    && forall y | y in t.entities && Linked(t, x, y) :: y == k || Before(StampOf(t, k), StampOf(t, y))
  }

  lemma KeeperExists(t: Tables, x: Id)
    requires x in t.entities
    ensures exists k :: IsKeeper(t, x, k)
  {
    ConnectedReflexive(Links(t), x);
    var members := set y | y in t.entities && Linked(t, x, y);
    var stamps := set y | y in members :: StampOf(t, y);
    assert StampOf(t, x) in stamps;
    var least, _ := Extremes(stamps);
    var k :| k in members && StampOf(t, k) == least;
    assert IsKeeper(t, x, k);
  }

  lemma KeeperUnique(t: Tables, x: Id, k: Id, l: Id)
    requires IsKeeper(t, x, k) && IsKeeper(t, x, l)
    ensures k == l
  {
    if k != l {
      BeforeTransitive(StampOf(t, k), StampOf(t, l), StampOf(t, k));
      BeforeIrreflexive(StampOf(t, k));
    }
  }

  /** k names every entity's keeper. */
  ghost predicate KeeperTable(t: Tables, k: map<Id, Id>) {
    k.Keys == t.entities.Keys && forall x {:trigger IsKeeper(t, x, k[x])} | x in k :: IsKeeper(t, x, k[x])
  }

  lemma {:induction false} PartialKeeperTable(t: Tables, S: set<Id>) returns (k: map<Id, Id>)
    requires S <= t.entities.Keys
    ensures k.Keys == S && forall x {:trigger IsKeeper(t, x, k[x])} | x in k :: IsKeeper(t, x, k[x])
  {
    if S == {} {
      k := map[];
    } else {
      var x :| x in S;
      var rest := PartialKeeperTable(t, S - {x});
      KeeperExists(t, x);
      var y :| IsKeeper(t, x, y);
      k := rest[x := y];
      forall z | z in k ensures IsKeeper(t, z, k[z]) {
        if z != x { assert IsKeeper(t, z, rest[z]); }
      }
    }
  }

  lemma KeeperTableExists(t: Tables)
    ensures exists k :: KeeperTable(t, k)
  {
    var k := PartialKeeperTable(t, t.entities.Keys);
    assert KeeperTable(t, k);
  }

  /** Every entity's keeper. */
  ghost function Keepers(t: Tables): (keepers: map<Id, Id>)
    ensures KeeperTable(t, keepers)
  {
    KeeperTableExists(t);
    var k :| KeeperTable(t, k);
    k
  }

  lemma KeeperIsKeeper(t: Tables, x: Id)
    requires x in t.entities
    ensures IsKeeper(t, x, Keepers(t)[x])
  {
  }

  /** Two entities have the same keeper exactly when they are linked. */
  lemma SameKeeperIffLinked(t: Tables, x: Id, y: Id)
    requires x in t.entities && y in t.entities
    ensures Keepers(t)[x] == Keepers(t)[y] <==> Linked(t, x, y)
  {
    var k, l := Keepers(t)[x], Keepers(t)[y];
    KeeperIsKeeper(t, x);
    KeeperIsKeeper(t, y);
    if k == l {
      ConnectedSymmetric(Links(t), y, l);
      ConnectedTransitive(Links(t), x, k, y);
    }
    if Linked(t, x, y) {
      KeeperCarries(t, x, y, l);
      KeeperUnique(t, x, k, l);
    }
  }

  /** The keeper of y is also the keeper of anything linked to y. */
  lemma KeeperCarries(t: Tables, x: Id, y: Id, l: Id)
    requires x in t.entities && y in t.entities && Linked(t, x, y) && IsKeeper(t, y, l)
    ensures IsKeeper(t, x, l)
  {
    ConnectedSymmetric(Links(t), x, y);
    ConnectedTransitive(Links(t), x, y, l);
    forall z | z in t.entities && Linked(t, x, z) ensures z == l || Before(StampOf(t, l), StampOf(t, z)) {
      ConnectedTransitive(Links(t), y, x, z);
    }
  }

  /** A keeper is kept by itself. */
  lemma KeeperOfKeeper(t: Tables, x: Id)
    requires x in t.entities
    ensures Keepers(t)[x] in t.entities && Keepers(t)[Keepers(t)[x]] == Keepers(t)[x]
  {
    KeeperIsKeeper(t, x);
    SameKeeperIffLinked(t, x, Keepers(t)[x]);
  }

  /** Nobody linked to an entity is older than its keeper; of two that are equally old the keeper
      has the lesser id. */
  lemma KeeperIsOldest(t: Tables, x: Id, y: Id)
    requires x in t.entities && y in t.entities && Linked(t, x, y)
    ensures var k := Keepers(t)[x];
      && k in t.entities
      && t.entities[k].createdAt <= t.entities[y].createdAt
      && (t.entities[k].createdAt == t.entities[y].createdAt ==> k == y || Less(k.text, y.text))
  {
    KeeperIsKeeper(t, x);
  }
}
