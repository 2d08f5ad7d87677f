// Reachability over a finite directed graph, cyclic or shared: the common notion
// behind the mark phase of the collector and the evaluator's collection points.
module Reachability {

  type Graph = map<nat, set<nat>>

  // x can be reached from a root along at most n edges.
  ghost predicate Within(g: Graph, roots: set<nat>, x: nat, n: nat)
    decreases n
  {
    x in roots || (n > 0 && exists y :: Edge(g, y, x) && Within(g, roots, y, n - 1))
  }

  ghost predicate Edge(g: Graph, y: nat, x: nat) {
    y in g && x in g[y]
  }

  ghost predicate Reachable(g: Graph, roots: set<nat>, x: nat) {
    exists n: nat :: Within(g, roots, x, n)
  }

  ghost predicate Closed(g: Graph, s: set<nat>) {
    forall y, x :: y in s && Edge(g, y, x) ==> x in s
  }

  lemma ReachableStep(g: Graph, roots: set<nat>, y: nat, x: nat)
    requires Reachable(g, roots, y) && Edge(g, y, x)
    ensures Reachable(g, roots, x)
  {
    var n: nat :| Within(g, roots, y, n);
    assert Within(g, roots, x, n + 1);
  }

  lemma ReachableRoot(g: Graph, roots: set<nat>, x: nat)
    requires x in roots
    ensures Reachable(g, roots, x)
  {
    assert Within(g, roots, x, 0);
  }

  // The reachable nodes are the least closed set that holds the roots.
  lemma {:induction false} WithinLeast(g: Graph, roots: set<nat>, s: set<nat>, x: nat, n: nat)
    requires roots <= s && Closed(g, s) && Within(g, roots, x, n)
    ensures x in s
    decreases n
  {
    if x !in roots {
      var y :| Edge(g, y, x) && Within(g, roots, y, n - 1);
      WithinLeast(g, roots, s, y, n - 1);
    }
  }

  lemma ReachableLeast(g: Graph, roots: set<nat>, s: set<nat>)
    requires roots <= s && Closed(g, s)
    ensures forall x :: Reachable(g, roots, x) ==> x in s
  {
    forall x | Reachable(g, roots, x)
      ensures x in s
    {
      var n: nat :| Within(g, roots, x, n);
      WithinLeast(g, roots, s, x, n);
    }
  }

  lemma {:induction false} WithinCompose(g: Graph, r1: set<nat>, r2: set<nat>, x: nat, n: nat)
    requires forall r :: r in r2 ==> Reachable(g, r1, r)
    requires Within(g, r2, x, n)
    ensures Reachable(g, r1, x)
    decreases n
  {
    if x !in r2 {
      var y :| Edge(g, y, x) && Within(g, r2, y, n - 1);
      WithinCompose(g, r1, r2, y, n - 1);
      ReachableStep(g, r1, y, x);
    }
  }

  // Whatever is reachable from reachable nodes is reachable.
  lemma ReachableCompose(g: Graph, r1: set<nat>, r2: set<nat>)
    requires forall r :: r in r2 ==> Reachable(g, r1, r)
    ensures forall x :: Reachable(g, r2, x) ==> Reachable(g, r1, x)
  {
    forall x | Reachable(g, r2, x)
      ensures Reachable(g, r1, x)
    {
      var n: nat :| Within(g, r2, x, n);
      WithinCompose(g, r1, r2, x, n);
    }
  }
}
