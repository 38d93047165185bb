/** Reachability in a finite directed graph given by successor sets. */
module Graphs {

  type Graph = seq<set<nat>>

  ghost predicate Closed(g: Graph) {
    forall a, b :: 0 <= a < |g| && b in g[a] ==> b < |g|
  }

  ghost predicate Edge(g: Graph, a: nat, b: nat) {
    a < |g| && b in g[a]
  }

  /** A non-empty list of nodes, each with an edge to the next. */
  ghost predicate Path(g: Graph, p: seq<nat>) {
    && |p| > 0
    && p[0] < |g|
    && forall i :: 0 < i < |p| ==> Edge(g, p[i - 1], p[i])
  }

  ghost predicate Reachable(g: Graph, from: nat, to: nat) {
    exists p :: Path(g, p) && p[0] == from && p[|p| - 1] == to
  }

  lemma ReachesItself(g: Graph, a: nat)
    requires a < |g|
    ensures Reachable(g, a, a)
  {
    assert Path(g, [a]);
  }

  lemma ReachExtends(g: Graph, from: nat, mid: nat, to: nat)
    requires Reachable(g, from, mid) && Edge(g, mid, to)
    ensures Reachable(g, from, to)
  {
    var p :| Path(g, p) && p[0] == from && p[|p| - 1] == mid;
    var q := p + [to];
    assert Path(g, q);
    assert q[0] == from && q[|q| - 1] == to;
  }

  /** A set that holds the start and is closed under edges holds everything reachable. */
  lemma ReachStays(g: Graph, from: nat, to: nat, inside: set<nat>)
    requires Reachable(g, from, to) && from in inside
    requires forall a, b :: a in inside && Edge(g, a, b) ==> b in inside
    ensures to in inside
  {
    var p :| Path(g, p) && p[0] == from && p[|p| - 1] == to;
    PathStays(g, p, |p| - 1, inside);
  }

  lemma {:induction false} PathStays(g: Graph, p: seq<nat>, i: nat, inside: set<nat>)
    requires Path(g, p) && i < |p| && p[0] in inside
    requires forall a, b :: a in inside && Edge(g, a, b) ==> b in inside
    ensures p[i] in inside
  {
    if i > 0 {
      PathStays(g, p, i - 1, inside);
      assert Edge(g, p[i - 1], p[i]);
    }
  }
}
