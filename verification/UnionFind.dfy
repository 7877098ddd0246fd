/** The disjoint-set forest a merge migration keeps in one mutable `parent` dictionary. */
module UnionFind {
  // ----- the forest, as a value -------------------------------------------

  /** `rank` witnesses that every parent chain is finite, since it falls on every proper step;
      `roots` names the end of each chain. */
  ghost predicate Forest<T>(parent: map<T, T>, rank: map<T, nat>, roots: map<T, T>) {
    && rank.Keys == parent.Keys == roots.Keys
    && parent.Values <= parent.Keys
    && (forall x {:trigger parent[x]} | x in parent ::
          assert parent[x] in parent.Values;
          && roots[parent[x]] == roots[x]
          && (if parent[x] == x then roots[x] == x else rank[parent[x]] < rank[x]))
  }

  /** The named root of x is a root, and lies above x unless it is x. */
  lemma {:induction false} RootIsRoot<T>(parent: map<T, T>, rank: map<T, nat>, roots: map<T, T>, x: T)
    requires Forest(parent, rank, roots) && x in parent
    ensures roots[x] in parent && parent[roots[x]] == roots[x] == roots[roots[x]]
    ensures roots[x] == x || rank[roots[x]] < rank[x]
    decreases rank[x]
  {
    if parent[x] != x { RootIsRoot(parent, rank, roots, parent[x]); }
  }

  /** Following `parent` n times from x. */
  ghost function Climb<T>(parent: map<T, T>, x: T, n: nat): T
    requires x in parent && parent.Values <= parent.Keys
    decreases n
  {
    if n == 0 then x else Climb(parent, parent[x], n - 1)
  }

  /** Every walk up a forest reaches the named root after at most rank[x] steps. */
  lemma {:induction false} ClimbEndsAtRoot<T>(parent: map<T, T>, rank: map<T, nat>, roots: map<T, T>, x: T)
    returns (n: nat)
    requires Forest(parent, rank, roots) && x in parent
    ensures n <= rank[x] && Climb(parent, x, n) == roots[x]
    decreases rank[x]
  {
    assert parent[x] in parent.Values;
    if parent[x] == x {
      n := 0;
    } else {
      var m := ClimbEndsAtRoot(parent, rank, roots, parent[x]);
      n := m + 1;
    }
  }

  /** The parent dictionary alone determines the roots. */
  lemma {:induction false} RootsAreDetermined<T>(
      parent: map<T, T>, rank: map<T, nat>, roots: map<T, T>,
      rank': map<T, nat>, roots': map<T, T>, x: T)
    requires Forest(parent, rank, roots) && Forest(parent, rank', roots') && x in parent
    ensures roots[x] == roots'[x]
    decreases rank[x]
  {
    if parent[x] != x { RootsAreDetermined(parent, rank, roots, rank', roots', parent[x]); }
  }

  // ----- what `find` and `union` do to the roots --------------------------

  function WithNode<T(==)>(roots: map<T, T>, x: T): map<T, T> {
    if x in roots then roots else roots[x := x]
  }

  function Joined<T(==)>(roots: map<T, T>, a: T, b: T): map<T, T>
    requires a in roots && b in roots
  {
    map x | x in roots :: if roots[x] == roots[a] then roots[b] else roots[x]
  }

  lemma JoiningTwiceIsIdle<T>(roots: map<T, T>, a: T, b: T)
    requires a in roots && b in roots && roots[a] == roots[b]
    ensures Joined(roots, a, b) == roots
  {
  }

  lemma RegisteringKeepsRoots<T>(parent: map<T, T>, rank: map<T, nat>, roots: map<T, T>, x: T)
    requires Forest(parent, rank, roots) && x !in parent
    ensures Forest(parent[x := x], rank[x := 0], roots[x := x])
  {
    assert forall y {:trigger parent[y]} | y in parent :: y != x && parent[y] != x;
  }

  /** Pointing one node straight at its own root changes no node's root and makes no cycle. */
  lemma CompressionKeepsRoots<T>(parent: map<T, T>, rank: map<T, nat>, roots: map<T, T>, x: T)
    requires Forest(parent, rank, roots) && x in parent
    ensures Forest(parent[x := roots[x]], rank, roots)
  {
    RootIsRoot(parent, rank, roots, x);
  }

  /** A rank for the forest in which root `a` has been hung under root `b`. */
  ghost function LinkedRank<T>(rank: map<T, nat>, roots: map<T, T>, a: T, b: T): map<T, nat>
    requires rank.Keys == roots.Keys && b in rank
  {
    map x | x in rank :: if roots[x] == a then rank[x] + rank[b] + 1 else rank[x]
  }

  /** Hanging one root under another keeps the forest acyclic and moves exactly one tree. */
  lemma LinkingJoinsRoots<T>(parent: map<T, T>, rank: map<T, nat>, roots: map<T, T>, a: T, b: T)
    requires Forest(parent, rank, roots) && a in parent && b in parent && roots[a] != roots[b] && roots[b] in parent
    ensures Forest(parent[roots[a] := roots[b]], LinkedRank(rank, roots, roots[a], roots[b]), Joined(roots, a, b))
  {
    RootIsRoot(parent, rank, roots, a);
    RootIsRoot(parent, rank, roots, b);
  }

  class DisjointSets<T(==)> {
    var parent: map<T, T>
    ghost var rank: map<T, nat>
    ghost var roots: map<T, T>

    ghost predicate Valid()
      reads this
    {
      Forest(parent, rank, roots)
    }

    constructor ()
      ensures Valid() && roots == map[]
    {
      parent, rank, roots := map[], map[], map[];
    }

    method Register(x: T)
      requires Valid()
      modifies this
      ensures Valid() && roots == WithNode(old(roots), x) && x in parent
    {
      if x !in parent {
        RegisteringKeepsRoots(parent, rank, roots, x);
        parent, rank, roots := parent[x := x], rank[x := 0], roots[x := x];
      }
    }

    /** Registers x if new, walks to the root, then points the walked chain at it. */
    method Find(x: T) returns (root: T)
      requires Valid()
      modifies this
      ensures Valid() && roots == WithNode(old(roots), x)
      ensures root == roots[x]
    {
      Register(x);
      ghost var named := roots;
      root := x;
      while parent[root] != root
        invariant root in parent && roots[root] == roots[x]
        decreases rank[root]
      {
        assert parent[root] in parent.Values;
        root := parent[root];
      }
      var walked := x;
      while parent[walked] != root
        invariant Valid() && roots == named
        invariant walked in parent && roots[walked] == root
        decreases rank[walked]
      {
        CompressionKeepsRoots(parent, rank, roots, walked);
        RootIsRoot(parent, rank, roots, walked);
        assert parent[walked] in parent.Values;
        parent, walked := parent[walked := root], parent[walked];
      }
    }

    /** Hangs a's root under b's root unless they are the same. */
    method Union(a: T, b: T)
      requires Valid()
      modifies this
      ensures Valid()
      ensures roots == Joined(WithNode(WithNode(old(roots), a), b), a, b)
    {
      var ra := Find(a);
      var rb := Find(b);
      assert ra == roots[a] && rb == roots[b];
      if ra == rb {
        JoiningTwiceIsIdle(roots, a, b);
      } else {
        RootIsRoot(parent, rank, roots, b);
        LinkingJoinsRoots(parent, rank, roots, a, b);
        parent, rank, roots := parent[ra := rb], LinkedRank(rank, roots, ra, rb), Joined(roots, a, b);
      }
    }
  }

  // ----- what the roots mean ----------------------------------------------

  /** p walks from x to y over edges of E taken in either direction. */
  ghost predicate IsPath<T>(E: set<(T, T)>, p: seq<T>, x: T, y: T) {
    && |p| > 0 && p[0] == x && p[|p| - 1] == y
    && forall i | 0 <= i < |p| - 1 :: (p[i], p[i + 1]) in E || (p[i + 1], p[i]) in E
  }

  /** The reflexive, symmetric, transitive closure of E. */
  ghost predicate Connected<T(!new)>(E: set<(T, T)>, x: T, y: T) {
    exists p: seq<T> :: IsPath(E, p, x, y)
  }

  lemma ConnectedReflexive<T(!new)>(E: set<(T, T)>, x: T)
    ensures Connected(E, x, x)
  {
    assert IsPath(E, [x], x, x);
  }

  lemma ConnectedEdge<T(!new)>(E: set<(T, T)>, x: T, y: T)
    requires (x, y) in E
    ensures Connected(E, x, y)
  {
    assert IsPath(E, [x, y], x, y);
  }

  lemma ConnectedSymmetric<T(!new)>(E: set<(T, T)>, x: T, y: T)
    requires Connected(E, x, y)
    ensures Connected(E, y, x)
  {
    var p :| IsPath(E, p, x, y);
    var q := seq(|p|, i requires 0 <= i < |p| => p[|p| - 1 - i]);
    forall i | 0 <= i < |q| - 1 ensures (q[i], q[i + 1]) in E || (q[i + 1], q[i]) in E {
      var j := |p| - 2 - i;
      assert q[i] == p[j + 1] && q[i + 1] == p[j];
    }
    assert IsPath(E, q, y, x);
  }

  lemma ConnectedTransitive<T(!new)>(E: set<(T, T)>, x: T, y: T, z: T)
    requires Connected(E, x, y) && Connected(E, y, z)
    ensures Connected(E, x, z)
  {
    var p :| IsPath(E, p, x, y);
    var q :| IsPath(E, q, y, z);
    var r := p + q[1..];
    forall i | 0 <= i < |r| - 1 ensures (r[i], r[i + 1]) in E || (r[i + 1], r[i]) in E {
      if i >= |p| - 1 {
        var j := i - (|p| - 1);
        assert r[i] == q[j] && r[i + 1] == q[j + 1];
      }
    }
    assert IsPath(E, r, x, z);
  }

  /** Anything that agrees across every edge agrees across the whole closure. */
  lemma {:induction false} AgreesAlongPath<T, V>(E: set<(T, T)>, f: map<T, V>, p: seq<T>, x: T, y: T)
    requires IsPath(E, p, x, y) && x in f
    requires forall e | e in E :: e.0 in f && e.1 in f && f[e.0] == f[e.1]
    ensures y in f && f[x] == f[y]
    decreases |p|
  {
    if |p| > 1 {
      assert (p[0], p[1]) in E || (p[1], p[0]) in E;
      forall i | 0 <= i < |p[1..]| - 1 ensures (p[1..][i], p[1..][i + 1]) in E || (p[1..][i + 1], p[1..][i]) in E {
        assert p[1..][i] == p[i + 1] && p[1..][i + 1] == p[i + 2];
      }
      AgreesAlongPath(E, f, p[1..], p[1], y);
    }
  }

  /** Nodes sharing a root are connected by E. */
  ghost predicate Sound<T(!new)>(roots: map<T, T>, E: set<(T, T)>) {
    forall x, y | x in roots && y in roots && roots[x] == roots[y] :: Connected(E, x, y)
  }

  /** Whatever shared a root still does. */
  ghost predicate Coarsened<T(!new)>(before: map<T, T>, after: map<T, T>) {
    && before.Keys == after.Keys
    && forall x, y | x in before && y in before && before[x] == before[y] :: after[x] == after[y]
  }

  /** Joining two connected nodes never relates nodes that E does not connect. */
  lemma JoinedSound<T(!new)>(roots: map<T, T>, E: set<(T, T)>, a: T, b: T)
    requires Sound(roots, E) && a in roots && b in roots && Connected(E, a, b)
    ensures Sound(Joined(roots, a, b), E) && Coarsened(roots, Joined(roots, a, b))
  {
    var joined := Joined(roots, a, b);
    ConnectedSymmetric(E, a, b);
    forall x, y | x in joined && y in joined && joined[x] == joined[y] ensures Connected(E, x, y) {
      if roots[x] != roots[y] {
        var (p, q) := if roots[x] == roots[a] then (a, b) else (b, a);
        ConnectedTransitive(E, x, p, q);
        ConnectedTransitive(E, x, q, y);
      }
    }
  }

  /** If every edge of E joins nodes with one root, the roots are exactly the components of E. */
  lemma RootsAreComponents<T(!new)>(roots: map<T, T>, E: set<(T, T)>, x: T, y: T)
    requires Sound(roots, E) && x in roots && y in roots
    requires forall e | e in E :: e.0 in roots && e.1 in roots && roots[e.0] == roots[e.1]
    ensures roots[x] == roots[y] <==> Connected(E, x, y)
  {
    if Connected(E, x, y) {
      var p :| IsPath(E, p, x, y);
      AgreesAlongPath(E, roots, p, x, y);
    }
  }
}
