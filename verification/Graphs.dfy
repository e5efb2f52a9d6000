/** Finite directed graphs given by their edges: reachability, cycles and longest chains. */
module Graphs {

  // A path is a non-empty sequence of nodes in which each node is joined to the next.
  ghost predicate IsPath<N(!new)>(E: set<(N, N)>, p: seq<N>) {
    forall i | 0 <= i < |p| - 1 :: (p[i], p[i + 1]) in E
  }

  ghost predicate PathFromTo<N(!new)>(E: set<(N, N)>, p: seq<N>, a: N, b: N) {
    |p| > 0 && p[0] == a && p[|p| - 1] == b && IsPath(E, p)
  }

  ghost predicate Reaches<N(!new)>(E: set<(N, N)>, a: N, b: N) {
    exists p :: PathFromTo(E, p, a, b)
  }

  ghost predicate HasCycle<N(!new)>(E: set<(N, N)>) {
    exists p :: IsCycle(E, p)
  }

  ghost predicate IsCycle<N(!new)>(E: set<(N, N)>, p: seq<N>) {
    |p| > 1 && IsPath(E, p) && p[0] == p[|p| - 1]
  }

  // ---- Reachability ----

  lemma ReachesSelf<N(!new)>(E: set<(N, N)>, a: N)
    ensures Reaches(E, a, a)
  {
    assert PathFromTo(E, [a], a, a);
  }

  lemma ReachesStep<N(!new)>(E: set<(N, N)>, a: N, b: N, c: N)
    requires Reaches(E, a, b) && (b, c) in E
    ensures Reaches(E, a, c)
  {
    var p :| PathFromTo(E, p, a, b);
    var q := p + [c];
    forall i | 0 <= i < |q| - 1 ensures (q[i], q[i + 1]) in E {
      assert i < |p| - 1 ==> (p[i], p[i + 1]) in E;
    }
    assert PathFromTo(E, q, a, c);
  }

  lemma ReachesTrans<N(!new)>(E: set<(N, N)>, a: N, b: N, c: N)
    requires Reaches(E, a, b) && Reaches(E, b, c)
    ensures Reaches(E, a, c)
  {
    var p :| PathFromTo(E, p, a, b);
    var q :| PathFromTo(E, q, b, c);
    var r := p + q[1..];
    forall i | 0 <= i < |r| - 1 ensures (r[i], r[i + 1]) in E {
      if i < |p| - 1 {
        assert (p[i], p[i + 1]) in E;
      } else {
        var j := i - (|p| - 1);
        assert (q[j], q[j + 1]) in E;
      }
    }
    assert PathFromTo(E, r, a, c);
  }

  // A set is closed when no edge leaves it.
  ghost predicate Closed<N(!new)>(E: set<(N, N)>, S: set<N>) {
    forall u, v | (u, v) in E && u in S :: v in S
  }

  lemma {:induction false} ClosedHoldsPath<N(!new)>(E: set<(N, N)>, S: set<N>, p: seq<N>)
    requires Closed(E, S) && IsPath(E, p) && |p| > 0 && p[0] in S
    ensures forall i | 0 <= i < |p| :: p[i] in S
    decreases |p|
  {
    if |p| > 1 {
      var q := p[..|p| - 1];
      assert IsPath(E, q) by {
        forall i | 0 <= i < |q| - 1 ensures (q[i], q[i + 1]) in E {
          assert (p[i], p[i + 1]) in E;
        }
      }
      ClosedHoldsPath(E, S, q);
      assert q[|q| - 1] in S;
      assert (p[|p| - 2], p[|p| - 1]) in E;
      forall i | 0 <= i < |p| ensures p[i] in S {
        assert i < |q| ==> q[i] == p[i];
      }
    }
  }

  /** A closed set that holds the start and only reachable nodes is exactly what the start reaches. */
  lemma ClosedIsReach<N(!new)>(E: set<(N, N)>, a: N, S: set<N>)
    requires a in S && Closed(E, S)
    requires forall b | b in S :: Reaches(E, a, b)
    ensures forall b :: b in S <==> Reaches(E, a, b)
  {
    forall b | Reaches(E, a, b) ensures b in S {
      var p :| PathFromTo(E, p, a, b);
      ClosedHoldsPath(E, S, p);
    }
  }

  // What a worklist traversal from `a` keeps: everything met is reachable, and the successors of a finished
  // node are finished or waiting.
  ghost predicate Traversal<N(!new)>(E: set<(N, N)>, a: N, found: set<N>, pending: seq<N>) {
    && (a in found || a in pending)
    && (forall v | v in found || v in pending :: Reaches(E, a, v))
    && (forall u, v | (u, v) in E && u in found :: v in found || v in pending)
  }

  lemma TraversalStart<N(!new)>(E: set<(N, N)>, a: N)
    ensures Traversal(E, a, {}, [a])
  {
    ReachesSelf(E, a);
  }

  lemma TraversalSkip<N(!new)>(E: set<(N, N)>, a: N, found: set<N>, pending: seq<N>)
    requires pending != [] && Traversal(E, a, found, pending) && pending[|pending| - 1] in found
    ensures Traversal(E, a, found, pending[..|pending| - 1])
  {
    assert pending == pending[..|pending| - 1] + [pending[|pending| - 1]];
  }

  lemma TraversalExpand<N(!new)>(E: set<(N, N)>, a: N, found: set<N>, pending: seq<N>, successors: seq<N>)
    requires pending != [] && Traversal(E, a, found, pending)
    requires forall v :: v in successors <==> (pending[|pending| - 1], v) in E
    ensures Traversal(E, a, found + {pending[|pending| - 1]}, pending[..|pending| - 1] + successors)
  {
    var next := pending[|pending| - 1];
    assert pending == pending[..|pending| - 1] + [next];
    forall v | v in successors ensures Reaches(E, a, v) {
      assert next in pending;
      ReachesStep(E, a, next, v);
    }
  }

  lemma TraversalDone<N(!new)>(E: set<(N, N)>, a: N, found: set<N>)
    requires Traversal(E, a, found, [])
    ensures forall v :: v in found <==> Reaches(E, a, v)
  {
    ClosedIsReach(E, a, found);
  }

  ghost function Nodes<N(!new)>(E: set<(N, N)>): set<N> {
    (set e | e in E :: e.0) + (set e | e in E :: e.1)
  }

  lemma ReachedAreNodes<N(!new)>(E: set<(N, N)>, a: N, v: N)
    requires Reaches(E, a, v)
    ensures v == a || v in Nodes(E)
  {
    var p :| PathFromTo(E, p, a, v);
    if |p| > 1 {
      assert (p[|p| - 2], p[|p| - 1]) in E;
    }
  }

  /** A traversal can still grow only within the nodes of the graph. */
  lemma TraversalRoom<N(!new)>(E: set<(N, N)>, a: N, found: set<N>, next: N)
    requires Reaches(E, a, next) && next !in found
    ensures Nodes(E) + {a} - (found + {next}) < Nodes(E) + {a} - found
  {
    ReachedAreNodes(E, a, next);
    assert next in Nodes(E) + {a} - found;
  }

  // ---- Cycles ----

  /** More entries than values: some value occurs twice. */
  lemma {:induction false} Pigeonhole<N(!new)>(p: seq<N>, S: set<N>) returns (i: nat, j: nat)
    requires |p| > |S| && forall k | 0 <= k < |p| :: p[k] in S
    ensures i < j < |p| && p[i] == p[j]
    decreases |p|
  {
    var last := p[|p| - 1];
    var q := p[..|p| - 1];
    if last in q {
      i :| 0 <= i < |q| && q[i] == last;
      j := |p| - 1;
    } else {
      forall k | 0 <= k < |q| ensures q[k] in S - {last} {
        assert q[k] == p[k];
      }
      i, j := Pigeonhole(q, S - {last});
    }
  }

  lemma RepeatIsCycle<N(!new)>(E: set<(N, N)>, p: seq<N>, i: nat, j: nat)
    requires IsPath(E, p) && i < j < |p| && p[i] == p[j]
    ensures HasCycle(E)
  {
    var c := p[i..j + 1];
    forall k | 0 <= k < |c| - 1 ensures (c[k], c[k + 1]) in E {
      assert (p[i + k], p[i + k + 1]) in E;
    }
    assert IsCycle(E, c);
  }

  /** Without cycles, a path visits each node at most once. */
  lemma AcyclicPathShort<N(!new)>(E: set<(N, N)>, p: seq<N>, V: set<N>)
    requires !HasCycle(E) && IsPath(E, p) && forall k | 0 <= k < |p| :: p[k] in V
    ensures |p| <= |V|
  {
    if |p| > |V| {
      var i, j := Pigeonhole(p, V);
      RepeatIsCycle(E, p, i, j);
    }
  }

  ghost predicate HasPredecessor<N(!new)>(E: set<(N, N)>, R: set<N>, x: N) {
    exists u :: u in R && (u, x) in E
  }

  /** From a set in which every node has a predecessor one can walk backwards for ever. */
  lemma {:induction false} BackwardWalk<N(!new)>(E: set<(N, N)>, R: set<N>, v: N, n: nat) returns (p: seq<N>)
    requires v in R && forall x | x in R :: HasPredecessor(E, R, x)
    ensures |p| == n + 1 && IsPath(E, p) && p[|p| - 1] == v && forall k | 0 <= k < |p| :: p[k] in R
    decreases n
  {
    if n == 0 {
      p := [v];
    } else {
      assert HasPredecessor(E, R, v);
      var u :| u in R && (u, v) in E;
      var q := BackwardWalk(E, R, u, n - 1);
      p := q + [v];
      forall i | 0 <= i < |p| - 1 ensures (p[i], p[i + 1]) in E {
        assert i < |q| - 1 ==> (q[i], q[i + 1]) in E;
      }
    }
  }

  lemma NoSourceIsCycle<N(!new)>(E: set<(N, N)>, R: set<N>)
    requires R != {} && forall x | x in R :: HasPredecessor(E, R, x)
    ensures HasCycle(E)
  {
    var v :| v in R;
    var p := BackwardWalk(E, R, v, |R|);
    var i, j := Pigeonhole(p, R);
    RepeatIsCycle(E, p, i, j);
  }

  /** Nodes numbered so that every edge between them goes up lie on no cycle. */
  lemma {:induction false} RankClimbs<N(!new)>(E: set<(N, N)>, rank: map<N, nat>, p: seq<N>)
    requires IsPath(E, p) && |p| > 0
    requires forall k | 0 <= k < |p| :: p[k] in rank
    requires forall u, v | (u, v) in E && u in rank && v in rank :: rank[u] < rank[v]
    ensures rank[p[0]] + |p| - 1 <= rank[p[|p| - 1]]
    decreases |p|
  {
    if |p| > 1 {
      var q := p[..|p| - 1];
      forall i | 0 <= i < |q| - 1 ensures (q[i], q[i + 1]) in E {
        assert (p[i], p[i + 1]) in E;
      }
      RankClimbs(E, rank, q);
      assert (p[|p| - 2], p[|p| - 1]) in E;
    }
  }

  lemma SubgraphAcyclic<N(!new)>(E: set<(N, N)>, F: set<(N, N)>)
    requires F <= E && !HasCycle(E)
    ensures !HasCycle(F)
  {
    if HasCycle(F) {
      var p :| IsCycle(F, p);
      assert IsCycle(E, p);
    }
  }

  // ---- Longest chains ----

  ghost predicate ChainTo<N(!new)>(E: set<(N, N)>, p: seq<N>, v: N) {
    |p| > 0 && p[|p| - 1] == v && IsPath(E, p)
  }

  // `d` is the number of edges on a longest path that ends at `v`.
  ghost predicate LongestChain<N(!new)>(E: set<(N, N)>, v: N, d: nat) {
    && (exists p :: ChainTo(E, p, v) && |p| == d + 1)
    && forall p | ChainTo(E, p, v) :: |p| <= d + 1
  }

  lemma LongestIsUnique<N(!new)>(E: set<(N, N)>, v: N, d: nat, e: nat)
    requires LongestChain(E, v, d) && LongestChain(E, v, e)
    ensures d == e
  {
  }

  // Every level is the length of some chain ...
  ghost predicate Witnessed<N(!new)>(E: set<(N, N)>, level: map<N, nat>) {
    forall v | v in level :: exists p :: ChainTo(E, p, v) && |p| == level[v] + 1
  }

  // ... no chain of at most `k` edges is longer than the level of its end ...
  ghost predicate Covers<N(!new)>(E: set<(N, N)>, level: map<N, nat>, k: nat) {
    forall v, p | v in level && ChainTo(E, p, v) && |p| <= k + 1 :: |p| <= level[v] + 1
  }

  // ... and a fixpoint is what no further relaxation would change.
  ghost predicate Fixpoint<N(!new)>(E: set<(N, N)>, level: map<N, nat>) {
    forall u, v | (u, v) in E && u in level && v in level :: level[u] + 1 <= level[v]
  }

  ghost predicate Over<N(!new)>(E: set<(N, N)>, V: set<N>) {
    forall u, v | (u, v) in E :: u in V && v in V
  }

  lemma ChainFront<N(!new)>(E: set<(N, N)>, p: seq<N>, v: N)
    requires ChainTo(E, p, v) && |p| > 1
    ensures ChainTo(E, p[..|p| - 1], p[|p| - 2]) && (p[|p| - 2], v) in E
  {
    var q := p[..|p| - 1];
    forall i | 0 <= i < |q| - 1 ensures (q[i], q[i + 1]) in E {
      assert (p[i], p[i + 1]) in E;
    }
    assert (p[|p| - 2], p[|p| - 1]) in E;
  }

  lemma ChainBack<N(!new)>(E: set<(N, N)>, p: seq<N>, u: N, v: N)
    requires ChainTo(E, p, u) && (u, v) in E
    ensures ChainTo(E, p + [v], v)
  {
    var q := p + [v];
    forall i | 0 <= i < |q| - 1 ensures (q[i], q[i + 1]) in E {
      assert i < |p| - 1 ==> (p[i], p[i + 1]) in E;
    }
  }

  lemma ZeroWitnessed<N(!new)>(E: set<(N, N)>, level: map<N, nat>)
    requires forall v | v in level :: level[v] == 0
    ensures Witnessed(E, level) && Covers(E, level, 0)
  {
    forall v | v in level ensures exists p :: ChainTo(E, p, v) && |p| == level[v] + 1 {
      assert ChainTo(E, [v], v);
    }
  }

  /** Relaxing one edge keeps every level the length of a chain. */
  lemma RelaxWitnessed<N(!new)>(E: set<(N, N)>, level: map<N, nat>, u: N, v: N)
    requires Witnessed(E, level) && (u, v) in E && u in level && v in level
    ensures Witnessed(E, level[v := level[u] + 1])
  {
    var next := level[v := level[u] + 1];
    forall x | x in next ensures exists p :: ChainTo(E, p, x) && |p| == next[x] + 1 {
      if x == v {
        var p :| ChainTo(E, p, u) && |p| == level[u] + 1;
        ChainBack(E, p, u, v);
      }
    }
  }

  /** One pass over all edges covers chains that are one edge longer. */
  lemma PassCovers<N(!new)>(E: set<(N, N)>, base: map<N, nat>, level: map<N, nat>, k: nat)
    requires Covers(E, base, k) && base.Keys == level.Keys && Over(E, level.Keys)
    requires forall v | v in level :: base[v] <= level[v]
    requires forall u, v | (u, v) in E :: base[u] + 1 <= level[v]
    ensures Covers(E, level, k + 1)
  {
    forall v, p | v in level && ChainTo(E, p, v) && |p| <= k + 2 ensures |p| <= level[v] + 1 {
      if |p| > 1 {
        ChainFront(E, p, v);
        assert |p[..|p| - 1]| <= base[p[|p| - 2]] + 1;
      }
    }
  }

  /** A fixpoint bounds every chain. */
  lemma {:induction false} FixpointBounds<N(!new)>(E: set<(N, N)>, level: map<N, nat>, p: seq<N>, v: N)
    requires Fixpoint(E, level) && Over(E, level.Keys) && v in level && ChainTo(E, p, v)
    ensures |p| <= level[v] + 1
    decreases |p|
  {
    if |p| > 1 {
      ChainFront(E, p, v);
      FixpointBounds(E, level, p[..|p| - 1], p[|p| - 2]);
    }
  }

  lemma FixpointIsLongest<N(!new)>(E: set<(N, N)>, level: map<N, nat>)
    requires Witnessed(E, level) && Fixpoint(E, level) && Over(E, level.Keys)
    ensures forall v | v in level :: LongestChain(E, v, level[v])
  {
    forall v | v in level ensures LongestChain(E, v, level[v]) {
      forall p | ChainTo(E, p, v) ensures |p| <= level[v] + 1 {
        FixpointBounds(E, level, p, v);
      }
    }
  }

  /** Covering chains as long as the graph is large is covering all of them, when there is no cycle. */
  lemma CoversIsLongest<N(!new)>(E: set<(N, N)>, level: map<N, nat>, k: nat)
    requires !HasCycle(E) && Over(E, level.Keys) && Witnessed(E, level) && Covers(E, level, k)
    requires |level.Keys| <= k + 1
    ensures forall v | v in level :: LongestChain(E, v, level[v])
  {
    forall v, p | v in level && ChainTo(E, p, v) ensures |p| <= level[v] + 1 {
      ChainStays(E, level.Keys, p, v);
      AcyclicPathShort(E, p, level.Keys);
    }
  }

  lemma ChainStays<N(!new)>(E: set<(N, N)>, V: set<N>, p: seq<N>, v: N)
    requires ChainTo(E, p, v) && Over(E, V) && v in V
    ensures forall k | 0 <= k < |p| :: p[k] in V
  {
    forall k | 0 <= k < |p| ensures p[k] in V {
      assert k < |p| - 1 ==> (p[k], p[k + 1]) in E;
    }
  }

  /** The longest-chain labelling: edges climb, it stays below the number of nodes, and it skips no level. */
  lemma LongestClimbs<N(!new)>(E: set<(N, N)>, level: map<N, nat>, u: N, v: N)
    requires (u, v) in E && u in level && v in level
    requires LongestChain(E, u, level[u]) && LongestChain(E, v, level[v])
    ensures level[u] < level[v]
  {
    var p :| ChainTo(E, p, u) && |p| == level[u] + 1;
    ChainBack(E, p, u, v);
  }

  lemma LongestBelowSize<N(!new)>(E: set<(N, N)>, level: map<N, nat>, v: N)
    requires !HasCycle(E) && Over(E, level.Keys) && v in level && LongestChain(E, v, level[v])
    ensures level[v] < |level.Keys|
  {
    var p :| ChainTo(E, p, v) && |p| == level[v] + 1;
    ChainStays(E, level.Keys, p, v);
    AcyclicPathShort(E, p, level.Keys);
  }

  lemma LongestHasPrevious<N(!new)>(E: set<(N, N)>, level: map<N, nat>, v: N) returns (u: N)
    requires Over(E, level.Keys) && v in level && level[v] > 0
    requires forall x | x in level :: LongestChain(E, x, level[x])
    ensures u in level && (u, v) in E && level[u] == level[v] - 1
  {
    var p :| ChainTo(E, p, v) && |p| == level[v] + 1;
    ChainFront(E, p, v);
    u := p[|p| - 2];
    assert LongestChain(E, u, level[u]);
    LongestClimbs(E, level, u, v);
  }

  /** Occupied levels are contiguous from 0. */
  lemma {:induction false} LongestContiguous<N(!new)>(E: set<(N, N)>, level: map<N, nat>, v: N, d: nat)
    requires Over(E, level.Keys) && v in level && d <= level[v]
    requires forall x | x in level :: LongestChain(E, x, level[x])
    ensures exists u :: u in level && level[u] == d
    decreases level[v]
  {
    if d < level[v] {
      var u := LongestHasPrevious(E, level, v);
      LongestContiguous(E, level, u, d);
    }
  }
}
