/** Closing duplicate current facts: of each (entity, attribute) the newest current fact stays
    current, the others are closed and point at it. */
module FactSupersede {
  import opened Orders
  import opened EntityTables
  import opened EntityMergeTheorems

  type Facts = map<Id, Fact>

  predicate IsCurrent(f: Fact) {
    f.validTo == None
  }

  predicate SameAttribute(a: Fact, b: Fact) {
    a.entity == b.entity && a.attribute == b.attribute
  }

  /** r and s are ranked in one partition: both current, for one attribute of one entity. */
  predicate Rivals(rows: Facts, r: Id, s: Id) {
    r in rows && s in rows && IsCurrent(rows[r]) && IsCurrent(rows[s]) && SameAttribute(rows[r], rows[s])
  }

  function Recency(rows: Facts, r: Id): Stamp
    requires r in rows
  {
    Stamp(rows[r].validFrom, r.text)
  }

  /** k is the newest of the current facts ranked together with r. */
  ghost predicate IsNewest(rows: Facts, r: Id, k: Id) {
    Rivals(rows, r, k) && forall s | Rivals(rows, r, s) :: s == k || Before(Recency(rows, s), Recency(rows, k))
  }

  lemma NewestUnique(rows: Facts, r: Id, k: Id, l: Id)
    requires IsNewest(rows, r, k) && IsNewest(rows, r, l)
    ensures k == l
  {
    if k != l {
      BeforeTransitive(Recency(rows, k), Recency(rows, l), Recency(rows, k));
      BeforeIrreflexive(Recency(rows, k));
    }
  }

  lemma NewestExists(rows: Facts, r: Id)
    requires r in rows && IsCurrent(rows[r])
    ensures exists k :: IsNewest(rows, r, k)
  {
    var stamps := set s | s in rows && Rivals(rows, r, s) :: Recency(rows, s);
    assert Rivals(rows, r, r) && Recency(rows, r) in stamps;
    var _, greatest := Extremes(stamps);
    var k :| k in rows && Rivals(rows, r, k) && Recency(rows, k) == greatest;
    assert IsNewest(rows, r, k);
  }

  /** The `FIRST_VALUE(fact_id)` of r's partition. */
  ghost function Newest(rows: Facts, r: Id): (k: Id)
    requires r in rows && IsCurrent(rows[r])
    ensures IsNewest(rows, r, k)
  {
    NewestExists(rows, r);
    var k :| IsNewest(rows, r, k);
    k
  }

  /** The newest of the current facts is the one that became valid last, the greatest id deciding
      among those that did so at once. */
  lemma NewestBecameValidLast(rows: Facts, r: Id, s: Id)
    requires r in rows && s in rows && rows[r].validTo == None && rows[s].validTo == None
    requires rows[r].entity == rows[s].entity && rows[r].attribute == rows[s].attribute
    ensures var k := Newest(rows, r);
      && k in rows && rows[k].validTo == None
      && rows[k].entity == rows[r].entity && rows[k].attribute == rows[r].attribute
      && rows[s].validFrom <= rows[k].validFrom
      && (rows[s].validFrom == rows[k].validFrom ==> s == k || Less(s.text, k.text))
  {
    assert Rivals(rows, r, s);
  }

  /** r is current, but something newer is current too. */
  ghost predicate Outdated(rows: Facts, r: Id) {
    r in rows && IsCurrent(rows[r]) && Newest(rows, r) != r
  }

  /** The row r after the update: closed at `now` and pointing at the newest, if outdated. */
  ghost function Closed(rows: Facts, r: Id, now: int): Fact
    requires r in rows
  {
    if Outdated(rows, r) then rows[r].(validTo := Some(now), supersededBy := Some(Newest(rows, r))) else rows[r]
  }

  ghost predicate Superseded(rows: Facts, now: int, after: Facts) {
    after.Keys == rows.Keys && forall r {:trigger after[r]} | r in rows :: after[r] == Closed(rows, r, now)
  }

  /** The update's effect: every row ranked behind the first is closed. */
  function Updated(rows: Facts, ranked: map<Id, (nat, Id)>, now: int): (after: Facts)
    ensures after.Keys == rows.Keys
  {
    map r | r in rows ::
      if r in ranked && ranked[r].0 > 1 then rows[r].(validTo := Some(now), supersededBy := Some(ranked[r].1))
      else rows[r]
  }

  lemma RankedRowsAreClosed(rows: Facts, ranked: map<Id, (nat, Id)>, now: int)
    requires forall r :: r in ranked <==> r in rows && IsCurrent(rows[r])
    requires forall r | r in ranked :: ranked[r].1 == Newest(rows, r) && (ranked[r].0 > 1 <==> ranked[r].1 != r)
    ensures Superseded(rows, now, Updated(rows, ranked, now))
  {
  }

  class FactTable {
    var rows: Facts

    constructor (rows: Facts)
      ensures this.rows == rows
    {
      this.rows := rows;
    }

    /** r's row number and the first row of its partition, newest first. */
    method Rank(r: Id) returns (rn: nat, keeper: Id)
      requires r in rows && IsCurrent(rows[r])
      ensures keeper == Newest(rows, r)
      ensures rn > 1 <==> keeper != r
    {
      rn, keeper := 1, r;
      BeforeIrreflexive(Recency(rows, r));
      var left := rows.Keys - {r};
      while left != {}
        invariant left <= rows.Keys - {r}
        invariant Rivals(rows, r, keeper) && (rn > 1 <==> keeper != r)
        invariant keeper != r ==> Before(Recency(rows, r), Recency(rows, keeper))
        invariant forall s | Rivals(rows, r, s) && s !in left :: s == keeper || Before(Recency(rows, s), Recency(rows, keeper))
      {
        var s :| s in left;
        if Rivals(rows, r, s) {
          BeforeTotal(Recency(rows, s), Recency(rows, keeper));
          BeforeTotal(Recency(rows, s), Recency(rows, r));
          if Before(Recency(rows, r), Recency(rows, s)) { rn := rn + 1; }
          if Before(Recency(rows, keeper), Recency(rows, s)) {
            OvertakingKeepsTheRest(rows, r, keeper, s);
            keeper := s;
          }
        }
        left := left - {s};
      }
      assert IsNewest(rows, r, keeper);
      NewestUnique(rows, r, keeper, Newest(rows, r));
    }

    /** The update: ranks every current fact, then closes all but the first of each partition. */
    method Supersede(now: int)
      modifies this
      ensures Superseded(old(rows), now, rows)
    {
      var ranked: map<Id, (nat, Id)> := map[];
      var left := rows.Keys;
      while left != {}
        invariant left <= rows.Keys && rows == old(rows)
        invariant forall r :: r in ranked <==> r in rows && r !in left && IsCurrent(rows[r])
        invariant forall r | r in ranked :: ranked[r].1 == Newest(rows, r) && (ranked[r].0 > 1 <==> ranked[r].1 != r)
      {
        var r :| r in left;
        if IsCurrent(rows[r]) {
          var rn, keeper := Rank(r);
          ranked := ranked[r := (rn, keeper)];
        }
        left := left - {r};
      }
      RankedRowsAreClosed(rows, ranked, now);
      rows := Updated(rows, ranked, now);
    }
  }

  /** Something newer than the newest so far is newer than everything it was newer than. */
  lemma OvertakingKeepsTheRest(rows: Facts, r: Id, keeper: Id, s: Id)
    requires Rivals(rows, r, keeper) && Rivals(rows, r, s) && Before(Recency(rows, keeper), Recency(rows, s))
    ensures forall q | Rivals(rows, r, q) && (q == keeper || Before(Recency(rows, q), Recency(rows, keeper))) ::
      Before(Recency(rows, q), Recency(rows, s))
  {
    forall q | Rivals(rows, r, q) && Before(Recency(rows, q), Recency(rows, keeper))
      ensures Before(Recency(rows, q), Recency(rows, s))
    {
      BeforeTransitive(Recency(rows, q), Recency(rows, keeper), Recency(rows, s));
    }
  }

  lemma RivalsShareNewest(rows: Facts, r: Id, s: Id)
    requires Rivals(rows, r, s)
    ensures Newest(rows, r) == Newest(rows, s)
  {
    assert forall q :: Rivals(rows, r, q) <==> Rivals(rows, s, q);
    assert IsNewest(rows, s, Newest(rows, r));
    NewestUnique(rows, s, Newest(rows, r), Newest(rows, s));
  }

  /** What the partial unique index demands: at most one current fact per entity and attribute. */
  ghost predicate SingleCurrent(rows: Facts) {
    forall r, s | r in rows && s in rows && rows[r].validTo == None && rows[s].validTo == None
                  && rows[r].entity == rows[s].entity && rows[r].attribute == rows[s].attribute :: r == s
  }

  /** A fact that was current still has exactly one current rival: the newest, unchanged. */
  lemma OneCurrentLeft(rows: Facts, now: int, after: Facts, r: Id, s: Id)
    requires Superseded(rows, now, after)
    requires r in rows && rows[r].validTo == None && s in rows
    requires rows[r].entity == rows[s].entity && rows[r].attribute == rows[s].attribute
    ensures after[s].validTo == None <==> s == Newest(rows, r)
    ensures after[s].validTo == None ==> after[s] == rows[s]
  {
    if IsCurrent(rows[s]) { RivalsShareNewest(rows, r, s); }
  }

  /** The index can be created. */
  lemma IndexHolds(rows: Facts, now: int, after: Facts)
    requires Superseded(rows, now, after)
    ensures SingleCurrent(after)
  {
    forall r, s | r in after && s in after && after[r].validTo == None && after[s].validTo == None
                  && after[r].entity == after[s].entity && after[r].attribute == after[s].attribute
      ensures r == s
    {
      OneCurrentLeft(rows, now, after, r, r);
      OneCurrentLeft(rows, now, after, r, s);
    }
  }

  /** A fact is closed now only because a current newer one, still current, took its place. */
  lemma ClosedFactsNameTheSurvivor(rows: Facts, now: int, after: Facts, r: Id)
    requires Superseded(rows, now, after) && r in rows && after[r] != rows[r]
    ensures rows[r].validTo == None
    ensures after[r] == rows[r].(validTo := Some(now), supersededBy := Some(Newest(rows, r)))
    ensures var k := Newest(rows, r);
      && k in after && after[k].validTo == None
      && after[k].entity == after[r].entity && after[k].attribute == after[r].attribute
      && (after[r].validFrom < after[k].validFrom
          || (after[r].validFrom == after[k].validFrom && Less(r.text, k.text)))
  {
    assert Rivals(rows, r, r);
    OneCurrentLeft(rows, now, after, r, Newest(rows, r));
  }

  /** A second run, at any later time, changes nothing. */
  lemma SupersedingAgainChangesNothing(rows: Facts, now: int, after: Facts, later: int, again: Facts)
    requires Superseded(rows, now, after) && Superseded(after, later, again)
    ensures again == after
  {
    IndexHolds(rows, now, after);
    forall r | r in after ensures again[r] == after[r] {
      if IsCurrent(after[r]) { assert Rivals(after, r, Newest(after, r)); }
    }
  }

  // ----- after the merge ---------------------------------------------------------

  /** r states attribute `attribute` of x, or of an entity that is a duplicate of x, and is current. */
  ghost predicate CurrentOf(t: Tables, x: Id, attribute: string, r: Id) {
    r in t.facts && t.facts[r].validTo == None && t.facts[r].attribute == attribute && Linked(t, x, t.facts[r].entity)
  }

  /** After the merge and this repair, each attribute of a cluster that had a current fact on any
      of its entities has exactly one, on the cluster's keeper: the newest of them all. */
  lemma MergeThenSupersede(
      t: Tables, m: Tables, aliasCtid: RowId -> nat, relCtid: Id -> nat, now: int, after: Facts, r: Id)
    returns (newest: Id)
    requires Merged(t, m, aliasCtid, relCtid) && Superseded(m.facts, now, after)
    requires r in t.facts && t.facts[r].validTo == None
    ensures after.Keys == t.facts.Keys
    ensures CurrentOf(t, t.facts[r].entity, t.facts[r].attribute, newest)
    ensures forall s | CurrentOf(t, t.facts[r].entity, t.facts[r].attribute, s) ::
      || t.facts[s].validFrom < t.facts[newest].validFrom
      || (t.facts[s].validFrom == t.facts[newest].validFrom && (s == newest || Less(s.text, newest.text)))
    ensures forall s | s in after && after[s].attribute == t.facts[r].attribute
                       && after[s].entity == Keepers(t)[t.facts[r].entity] :: after[s].validTo == None <==> s == newest
  {
    newest := Newest(m.facts, r);
    forall s | s in t.facts
      ensures Rivals(m.facts, r, s) <==> CurrentOf(t, t.facts[r].entity, t.facts[r].attribute, s)
      ensures Recency(m.facts, s) == Recency(t.facts, s)
    {
      SameKeeperIffLinked(t, t.facts[r].entity, t.facts[s].entity);
    }
    forall s | s in after && after[s].attribute == t.facts[r].attribute && after[s].entity == Keepers(t)[t.facts[r].entity]
      ensures after[s].validTo == None <==> s == newest
    {
      OneCurrentLeft(m.facts, now, after, r, s);
    }
  }
}
