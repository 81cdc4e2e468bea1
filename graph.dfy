/**
 * Dependency graphs as maps from a node to the nodes it depends on, and what a ranking of the
 * nodes says about them: when every edge goes to a lower rank, no chain of dependencies comes
 * back to where it started, chains are bounded in length, and every chain can be followed to a
 * node without dependencies.
 */
module Graph {
  type DependencyGraph<T> = map<T, seq<T>>

  /** Every dependency is itself a node. */
  predicate Closed<T>(g: DependencyGraph<T>)
  {
    forall a, i | a in g && 0 <= i < |g[a]| :: g[a][i] in g
  }

  predicate Edge<T>(g: DependencyGraph<T>, a: T, b: T)
  {
    a in g && b in g[a]
  }

  /** `p` follows dependency edges from its first node to its last. */
  predicate IsPath<T>(g: DependencyGraph<T>, p: seq<T>)
  {
    |p| >= 1 && p[0] in g && forall i | 0 <= i < |p| - 1 :: Edge(g, p[i], p[i + 1])
  }

  /** Each dependency is ranked strictly lower than its dependant. */
  predicate RankedBy<T>(g: DependencyGraph<T>, rank: T -> nat)
  {
    forall a, i | a in g && 0 <= i < |g[a]| :: rank(g[a][i]) < rank(a)
  }

  /** The nodes without dependencies. */
  function Leaves<T>(g: DependencyGraph<T>): set<T>
  {
    set a | a in g && g[a] == []
  }

  /** Along a path the rank falls by at least one per step. */
  lemma {:induction false} RankFallsAlongPath<T>(g: DependencyGraph<T>, rank: T -> nat, p: seq<T>)
    requires Closed(g) && RankedBy(g, rank) && IsPath(g, p)
    ensures rank(p[|p| - 1]) + |p| - 1 <= rank(p[0])
    decreases |p|
  {
    if |p| > 1 {
      var q := p[1..];
      assert Edge(g, p[0], p[1]);
      var i :| 0 <= i < |g[p[0]]| && g[p[0]][i] == p[1];
      assert q[0] in g;
      forall k | 0 <= k < |q| - 1 ensures Edge(g, q[k], q[k + 1]) {
        assert Edge(g, p[k + 1], p[k + 2]);
      }
      RankFallsAlongPath(g, rank, q);
    }
  }

  /**
   * A ranked graph has no cycle: no path of one step or more returns to its start, and no path
   * is longer than its start's rank plus one.
   */
  lemma RankedIsAcyclic<T>(g: DependencyGraph<T>, rank: T -> nat, p: seq<T>)
    requires Closed(g) && RankedBy(g, rank) && IsPath(g, p)
    ensures |p| >= 2 ==> p[0] != p[|p| - 1]
    ensures |p| <= rank(p[0]) + 1
  {
    RankFallsAlongPath(g, rank, p);
  }

  /** Following the first dependency from `start` until there is none: a path to a leaf. */
  function ChainToLeaf<T>(g: DependencyGraph<T>, rank: T -> nat, start: T): (p: seq<T>)
    requires Closed(g) && RankedBy(g, rank) && start in g
    ensures IsPath(g, p) && p[0] == start && p[|p| - 1] in Leaves(g)
    decreases rank(start)
  {
    if g[start] == [] then [start]
    else
      var next := g[start][0];
      var rest := ChainToLeaf(g, rank, next);
      assert Edge(g, start, rest[0]);
      assert forall i | 1 <= i < |rest| :: ([start] + rest)[i] == rest[i - 1];
      [start] + rest
  }
}
