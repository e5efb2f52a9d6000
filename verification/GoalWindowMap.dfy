/** The window collaboration map: declarations with a cyclic edge list are rejected (Kahn's algorithm),
    accepted ones are laid out in rows by relaxation with an early exit. */
module GoalWindowMap {
  import opened Common
  import opened Graphs
  import opened Layers
  import opened Sorting

  type Id = string

  datatype NodeKind = Main | Reviewer
  datatype EdgeKind = Coordination | Review
  datatype Node = Node(id: Id, kind: NodeKind)
  datatype Edge = Edge(from: Id, to: Id, kind: EdgeKind)
  datatype Declaration = Declaration(nodes: seq<Node>, edges: seq<Edge>)

  // One entry of the decoded JSON arrays. The field checks that look at nothing but the entry itself are
  // summed up in whether it is `Malformed`.
  datatype Candidate<T> = Malformed | WellFormed(value: T)

  ghost function EdgeSet(edges: seq<Edge>): set<(Id, Id)> {
    set e | e in edges :: (e.from, e.to)
  }

  function NodeIds(nodes: seq<Node>): (ids: seq<Id>)
    ensures |ids| == |nodes| && forall i | 0 <= i < |nodes| :: ids[i] == nodes[i].id
  {
    seq(|nodes|, i requires 0 <= i < |nodes| => nodes[i].id)
  }

  // ---- hasDirectedCycle ----

  /** How many edges lead into `v` from nodes that are not yet dequeued. */
  function Inbound(edges: seq<Edge>, done: set<Id>, v: Id): nat {
    if edges == [] then 0
    else
      var last := edges[|edges| - 1];
      Inbound(edges[..|edges| - 1], done, v) + if last.to == v && last.from !in done then 1 else 0
  }

  /** The targets of the edges that leave `u`, one entry for each edge. */
  function Targets(edges: seq<Edge>, u: Id): seq<Id> {
    if edges == [] then []
    else
      var last := edges[|edges| - 1];
      Targets(edges[..|edges| - 1], u) + if last.from == u then [last.to] else []
  }

  lemma {:induction false} DequeueLowersInbound(edges: seq<Edge>, done: set<Id>, u: Id, v: Id)
    requires u !in done
    ensures Inbound(edges, done, v) == Inbound(edges, done + {u}, v) + multiset(Targets(edges, u))[v]
  {
    if edges != [] {
      DequeueLowersInbound(edges[..|edges| - 1], done, u, v);
    }
  }

  lemma {:induction false} DequeueLowersAll(ids: seq<Id>, edges: seq<Edge>, done: set<Id>, u: Id)
    requires u !in done
    ensures forall v | v in ids ::
      Inbound(edges, done, v) == Inbound(edges, done + {u}, v) + multiset(Targets(edges, u))[v]
  {
    forall v | v in ids
      ensures Inbound(edges, done, v) == Inbound(edges, done + {u}, v) + multiset(Targets(edges, u))[v]
    {
      DequeueLowersInbound(edges, done, u, v);
    }
  }

  lemma {:induction false} InboundSource(edges: seq<Edge>, done: set<Id>, v: Id)
    ensures Inbound(edges, done, v) == 0 <==> forall e | e in edges && e.to == v :: e.from in done
  {
    if edges != [] {
      InboundSource(edges[..|edges| - 1], done, v);
      assert edges == edges[..|edges| - 1] + [edges[|edges| - 1]];
    }
  }

  lemma {:induction false} TargetsAreIds(edges: seq<Edge>, ids: seq<Id>, u: Id)
    requires forall e | e in edges :: e.to in ids
    ensures forall t | t in Targets(edges, u) :: t in ids
  {
    if edges != [] {
      TargetsAreIds(edges[..|edges| - 1], ids, u);
    }
  }

  // What the queue loop keeps: `order` is what has been dequeued so far, `ready` waits for its turn.
  ghost predicate QueueState(ids: seq<Id>, edges: seq<Edge>, inbound: map<Id, int>, order: seq<Id>, ready: seq<Id>) {
    && (forall v | v in ids :: v in inbound)
    && Distinct(order + ready)
    && (forall v | v in order + ready :: v in ids && inbound[v] == 0)
    && (forall v | v in ids && inbound[v] == 0 :: v in order + ready)
    && EarlierFirst(edges, order)
  }

  // Every edge into a listed node comes from a node listed before it.
  ghost predicate EarlierFirst(edges: seq<Edge>, order: seq<Id>) {
    forall e, j | e in edges && 0 <= j < |order| && e.to == order[j] :: e.from in order[..j]
  }

  ghost function Members(s: seq<Id>): set<Id> {
    set v | v in s
  }

  /** `inbound`: the number of edges into each node. */
  method CountInbound(ids: seq<Id>, edges: seq<Edge>) returns (inbound: map<Id, int>)
    requires forall e | e in edges :: e.to in ids
    ensures forall v | v in ids :: v in inbound && inbound[v] == Inbound(edges, {}, v)
  {
    inbound := map v | v in ids :: 0;
    for n := 0 to |edges|
      invariant forall v | v in ids :: v in inbound && inbound[v] == Inbound(edges[..n], {}, v)
    {
      assert edges[..n + 1][..n] == edges[..n];
      assert edges[n] in edges;
      inbound := inbound[edges[n].to := inbound[edges[n].to] + 1];
    }
    TakeAll(edges);
  }

  /** `outgoing`: the targets of the edges that leave each node. */
  method CollectOutgoing(edges: seq<Edge>) returns (outgoing: map<Id, seq<Id>>)
    ensures forall u :: (if u in outgoing then outgoing[u] else []) == Targets(edges, u)
  {
    outgoing := map[];
    for n := 0 to |edges|
      invariant forall u :: (if u in outgoing then outgoing[u] else []) == Targets(edges[..n], u)
    {
      TargetsPush(edges, n);
      var u := edges[n].from;
      outgoing := outgoing[u := (if u in outgoing then outgoing[u] else []) + [edges[n].to]];
    }
    TakeAll(edges);
  }

  lemma TargetsPush(edges: seq<Edge>, n: nat)
    requires n < |edges|
    ensures forall u :: u != edges[n].from ==> Targets(edges[..n + 1], u) == Targets(edges[..n], u)
    ensures Targets(edges[..n + 1], edges[n].from) == Targets(edges[..n], edges[n].from) + [edges[n].to]
  {
    assert edges[..n + 1][..n] == edges[..n];
  }

  /** Takes one dequeued node's edges away; nodes left without inbound edges become ready. */
  method ReleaseTargets(ids: seq<Id>, edges: seq<Edge>, targets: seq<Id>, inbound0: map<Id, int>, ready0: seq<Id>,
                        ghost order: seq<Id>)
    returns (inbound: map<Id, int>, ready: seq<Id>)
    requires QueueState(ids, edges, inbound0, order, ready0)
    requires forall t | t in targets :: t in ids
    requires forall v | v in ids :: multiset(targets)[v] <= inbound0[v]
    ensures QueueState(ids, edges, inbound, order, ready)
    ensures forall v | v in ids :: inbound[v] == inbound0[v] - multiset(targets)[v]
  {
    inbound, ready := inbound0, ready0;
    for n := 0 to |targets|
      invariant QueueState(ids, edges, inbound, order, ready)
      invariant Lowered(ids, inbound0, inbound, targets[..n])
    {
      var target := targets[n];
      OneMoreTarget(ids, inbound0, inbound, targets, n);
      EdgeTakenAway(ids, edges, inbound, order, ready, target);
      var remaining := inbound[target] - 1;
      inbound := inbound[target := remaining];
      if remaining == 0 {
        ready := ready + [target];
      }
    }
    TakeAll(targets);
  }

  // The counts without the edges to these targets.
  ghost predicate Lowered(ids: seq<Id>, before: map<Id, int>, inbound: map<Id, int>, targets: seq<Id>) {
    forall v | v in ids :: v in before && v in inbound && inbound[v] == before[v] - multiset(targets)[v]
  }

  lemma OneMoreTarget(ids: seq<Id>, before: map<Id, int>, inbound: map<Id, int>, targets: seq<Id>, n: nat)
    requires n < |targets| && targets[n] in ids && Lowered(ids, before, inbound, targets[..n])
    requires multiset(targets)[targets[n]] <= before[targets[n]]
    ensures inbound[targets[n]] > 0
    ensures Lowered(ids, before, inbound[targets[n] := inbound[targets[n]] - 1], targets[..n + 1])
  {
    TakeNext(targets, n);
    Halves(targets, n + 1);
    assert multiset(targets[..n + 1]) == multiset(targets[..n]) + multiset{targets[n]};
  }

  lemma EdgeTakenAway(ids: seq<Id>, edges: seq<Edge>, inbound: map<Id, int>, order: seq<Id>, ready: seq<Id>,
                      target: Id)
    requires QueueState(ids, edges, inbound, order, ready) && target in ids && inbound[target] > 0
    ensures var remaining := inbound[target] - 1;
      QueueState(ids, edges, inbound[target := remaining], order, if remaining == 0 then ready + [target] else ready)
  {
    assert target !in order + ready;
    if inbound[target] == 1 {
      assert order + (ready + [target]) == (order + ready) + [target];
    }
  }

  /** True exactly when the edges contain a directed cycle; otherwise `order` is a topological order of all ids. */
  method HasDirectedCycle(ids: seq<Id>, edges: seq<Edge>) returns (cyclic: bool, ghost order: seq<Id>)
    requires Distinct(ids)
    requires forall e | e in edges :: e.from in ids && e.to in ids
    ensures cyclic <==> HasCycle(EdgeSet(edges))
    ensures Distinct(order) && EarlierFirst(edges, order) && (!cyclic ==> Members(order) == Members(ids))
  {
    var inbound := CountInbound(ids, edges);
    var outgoing := CollectOutgoing(edges);
    var ready := Filter((id: Id) => id in inbound && inbound[id] == 0, ids);
    StartQueue(ids, edges, inbound, ready);
    var visited := 0;
    order := [];
    while |ready| > 0
      invariant QueueState(ids, edges, inbound, order, ready) && CountsLeft(ids, edges, inbound, order)
      invariant visited == |order|
      decreases |Members(ids)| - |Members(order)|
    {
      var id := ready[0];
      var targets := if id in outgoing then outgoing[id] else [];
      ghost var before := inbound;
      BeforeRelease(ids, edges, inbound, order, ready, targets);
      ready := ready[1..];
      order := order + [id];
      visited := visited + 1;
      inbound, ready := ReleaseTargets(ids, edges, targets, inbound, ready, order);
      AfterRelease(ids, edges, before, inbound, order, targets);
    }
    assert ready == [];
    cyclic := visited != |ids|;
    KahnVerdict(ids, edges, inbound, order);
  }

  // The counts are those of the edges that have not been taken away.
  ghost predicate CountsLeft(ids: seq<Id>, edges: seq<Edge>, inbound: map<Id, int>, order: seq<Id>) {
    forall v | v in ids :: v in inbound && inbound[v] == Inbound(edges, Members(order), v)
  }

  lemma {:induction false} AfterRelease(ids: seq<Id>, edges: seq<Edge>, before: map<Id, int>, inbound: map<Id, int>,
        order: seq<Id>,
                     targets: seq<Id>)
    requires forall v | v in ids :: v in before && v in inbound
    requires forall v | v in ids :: inbound[v] == before[v] - multiset(targets)[v]
    requires forall v | v in ids :: before[v] - multiset(targets)[v] == Inbound(edges, Members(order), v)
    ensures CountsLeft(ids, edges, inbound, order)
  {
  }

  lemma {:induction false} StartQueue(ids: seq<Id>, edges: seq<Edge>, inbound: map<Id, int>, ready: seq<Id>)
    requires Distinct(ids) && forall v | v in ids :: v in inbound
    requires ready == Filter((id: Id) => id in inbound && inbound[id] == 0, ids)
    ensures QueueState(ids, edges, inbound, [], ready)
  {
    FilterMembers((id: Id) => id in inbound && inbound[id] == 0, ids);
    FilterDistinct((id: Id) => id in inbound && inbound[id] == 0, ids);
    assert [] + ready == ready;
  }

  lemma StepDequeue(ids: seq<Id>, edges: seq<Edge>, inbound: map<Id, int>, order: seq<Id>, ready: seq<Id>)
    requires QueueState(ids, edges, inbound, order, ready) && ready != []
    requires forall e | e in edges && e.to == ready[0] :: e.from in order
    ensures QueueState(ids, edges, inbound, order + [ready[0]], ready[1..])
    ensures ready[0] !in order && ready[0] in ids
  {
    var next := order + [ready[0]];
    assert next + ready[1..] == order + ready;
    assert (order + ready)[|order|] == ready[0];
    forall i | 0 <= i < |order| ensures order[i] != ready[0] {
      assert (order + ready)[i] == order[i];
    }
    forall e, j | e in edges && 0 <= j < |next| && e.to == next[j] ensures e.from in next[..j] {
      assert next[..j] == order[..j];
    }
  }

  // Dequeuing the first ready node: what is left to do is to take its edges away.
  lemma {:induction false} BeforeRelease(ids: seq<Id>, edges: seq<Edge>, inbound: map<Id, int>, order: seq<Id>,
        ready: seq<Id>,
                      targets: seq<Id>)
    requires QueueState(ids, edges, inbound, order, ready) && ready != [] && targets == Targets(edges, ready[0])
    requires forall e | e in edges :: e.from in ids && e.to in ids
    requires CountsLeft(ids, edges, inbound, order)
    ensures QueueState(ids, edges, inbound, order + [ready[0]], ready[1..])
    ensures forall t | t in targets :: t in ids
    ensures forall v | v in ids :: multiset(targets)[v] <= inbound[v]
    ensures forall v | v in ids :: inbound[v] - multiset(targets)[v] == Inbound(edges, Members(order + [ready[0]]), v)
    ensures |Members(order)| < |Members(order + [ready[0]])| <= |Members(ids)|
  {
    var done, id := Members(order), ready[0];
    assert (order + ready)[|order|] == id;
    InboundSource(edges, done, id);
    StepDequeue(ids, edges, inbound, order, ready);
    assert Members(order + [id]) == done + {id};
    TargetsAreIds(edges, ids, id);
    DequeueLowersAll(ids, edges, done, id);
    forall v | v in done ensures v in ids {
      assert v in order + ready;
    }
    CardinalityGrows(ids, done, id);
  }

  lemma CardinalityGrows(ids: seq<Id>, done: set<Id>, id: Id)
    requires id in ids && id !in done && done <= Members(ids)
    ensures |done| < |done + {id}| <= |Members(ids)|
  {
    SubsetSize(done + {id}, Members(ids));
  }

  lemma {:induction false} DistinctSize(s: seq<Id>)
    requires Distinct(s)
    ensures |Members(s)| == |s|
  {
    if s != [] {
      DistinctSize(s[1..]);
      assert Members(s) == {s[0]} + Members(s[1..]);
    }
  }

  ghost function Position(s: seq<Id>, v: Id): (k: nat)
    requires v in s
    ensures k < |s| && s[k] == v
  {
    var k :| 0 <= k < |s| && s[k] == v;
    k
  }

  /** Nodes that can be listed sources first lie on no cycle. */
  lemma ListedIsAcyclic(edges: seq<Edge>, order: seq<Id>)
    requires Distinct(order) && EarlierFirst(edges, order)
    requires forall e | e in edges :: e.from in order && e.to in order
    ensures !HasCycle(EdgeSet(edges))
  {
    var E := EdgeSet(edges);
    var rank := map v | v in order :: Position(order, v);
    forall u, v | (u, v) in E ensures u in rank && v in rank && rank[u] < rank[v] {
      var e :| e in edges && e.from == u && e.to == v;
      assert u in order[..rank[v]];
      var k :| 0 <= k < rank[v] && order[k] == u;
      assert k == rank[u];
    }
    forall p ensures !IsCycle(E, p) {
      if IsCycle(E, p) {
        forall k | 0 <= k < |p| ensures p[k] in rank {
          assert k < |p| - 1 ==> (p[k], p[k + 1]) in E;
          assert k > 0 ==> (p[k - 1], p[k - 1 + 1]) in E;
        }
        RankClimbs(E, rank, p);
      }
    }
  }

  /** If some nodes were never dequeued, each of them waits for another one of them. */
  lemma {:induction false} StuckIsCycle(ids: seq<Id>, edges: seq<Edge>, order: seq<Id>, v: Id)
    requires forall e | e in edges :: e.from in ids && e.to in ids
    requires forall x | x in ids && x !in order :: Inbound(edges, Members(order), x) != 0
    requires v in ids && v !in order
    ensures HasCycle(EdgeSet(edges))
  {
    var R := set x | x in ids && x !in order;
    forall x | x in R ensures HasPredecessor(EdgeSet(edges), R, x) {
      InboundSource(edges, Members(order), x);
      var e :| e in edges && e.to == x && e.from !in Members(order);
      assert (e.from, x) in EdgeSet(edges) && e.from in R;
    }
    assert v in R;
    NoSourceIsCycle(EdgeSet(edges), R);
  }

  lemma KahnVerdict(ids: seq<Id>, edges: seq<Edge>, inbound: map<Id, int>, order: seq<Id>)
    requires Distinct(ids) && (forall e | e in edges :: e.from in ids && e.to in ids)
    requires QueueState(ids, edges, inbound, order, [])
    requires CountsLeft(ids, edges, inbound, order)
    ensures |order| != |ids| <==> HasCycle(EdgeSet(edges))
    ensures Distinct(order) && EarlierFirst(edges, order)
    ensures |order| == |ids| ==> Members(order) == Members(ids)
  {
    assert order + [] == order;
    DistinctSize(ids);
    DistinctSize(order);
    SubsetSize(Members(order), Members(ids));
    if |order| == |ids| {
      forall e | e in edges ensures e.from in order && e.to in order {
        assert e.from in Members(ids) && e.to in Members(ids);
      }
      ListedIsAcyclic(edges, order);
    } else {
      assert exists v :: v in Members(ids) && v !in Members(order) by {
        assert Members(ids) != Members(order);
      }
      var v :| v in Members(ids) && v !in Members(order);
      StuckIsCycle(ids, edges, order, v);
    }
  }

  // ---- parseDeclaration ----

  datatype EdgeFields = EdgeFields(from: Id, to: Id, kind: Option<EdgeKind>)

  // What `parseDeclaration` demands of the two arrays, besides the absence of a cycle.
  ghost predicate NodesAcceptable(nodes: seq<Candidate<Node>>) {
    && (forall i | 0 <= i < |nodes| :: nodes[i].WellFormed?)
    && (forall i, j | 0 <= i < j < |nodes| :: nodes[i].value.id != nodes[j].value.id)
  }

  ghost predicate EdgeAcceptable(ids: seq<Id>, edge: Candidate<EdgeFields>) {
    edge.WellFormed? && edge.value.from != edge.value.to && edge.value.from in ids && edge.value.to in ids
    && edge.value.kind.Some?
  }

  ghost function Values<T>(s: seq<Candidate<T>>): seq<T>
    requires forall i | 0 <= i < |s| :: s[i].WellFormed?
  {
    seq(|s|, i requires 0 <= i < |s| => s[i].value)
  }

  ghost predicate Accepts(nodes: seq<Candidate<Node>>, edges: seq<Candidate<EdgeFields>>, declaration: Declaration) {
    && NodesAcceptable(nodes)
    && declaration.nodes == Values(nodes)
    && |declaration.edges| == |edges|
    && (forall i | 0 <= i < |edges| :: EdgeAcceptable(NodeIds(declaration.nodes), edges[i])
         && declaration.edges[i] == Edge(edges[i].value.from, edges[i].value.to, edges[i].value.kind.value))
    && !HasCycle(EdgeSet(declaration.edges))
  }

  method ParseNodes(candidates: seq<Candidate<Node>>) returns (nodes: Option<seq<Node>>)
    ensures nodes.Some? <==> NodesAcceptable(candidates)
    ensures nodes.Some? ==> nodes.value == Values(candidates)
  {
    var ids: set<Id> := {};
    var parsed: seq<Node> := [];
    for n := 0 to |candidates|
      invariant NodesAcceptable(candidates[..n]) && parsed == Values(candidates[..n])
      invariant forall id :: id in ids <==> exists i :: 0 <= i < n && candidates[i].value.id == id
    {
      if candidates[n].Malformed? || candidates[n].value.id in ids {
        return None;
      }
      ids := ids + {candidates[n].value.id};
      parsed := parsed + [candidates[n].value];
    }
    TakeAll(candidates);
    nodes := Some(parsed);
  }

  method ParseEdges(ids: seq<Id>, candidates: seq<Candidate<EdgeFields>>) returns (edges: Option<seq<Edge>>)
    ensures edges.Some? <==> forall i | 0 <= i < |candidates| :: EdgeAcceptable(ids, candidates[i])
    ensures edges.Some? ==> |edges.value| == |candidates|
    ensures edges.Some? ==> forall i | 0 <= i < |candidates| ::
      edges.value[i] == Edge(candidates[i].value.from, candidates[i].value.to, candidates[i].value.kind.value)
  {
    var parsed: seq<Edge> := [];
    for n := 0 to |candidates|
      invariant |parsed| == n && forall i | 0 <= i < n :: EdgeAcceptable(ids, candidates[i])
      invariant forall i | 0 <= i < n ::
        parsed[i] == Edge(candidates[i].value.from, candidates[i].value.to, candidates[i].value.kind.value)
    {
      if candidates[n].Malformed? {
        return None;
      }
      var edge := candidates[n].value;
      if edge.from == edge.to || edge.from !in ids || edge.to !in ids || edge.kind.None? {
        return None;
      }
      parsed := parsed + [Edge(edge.from, edge.to, edge.kind.value)];
    }
    edges := Some(parsed);
  }

  /** A declaration is accepted exactly when its entries are in order and its edges contain no cycle. */
  method ParseDeclaration(nodes: seq<Candidate<Node>>, edges: seq<Candidate<EdgeFields>>)
    returns (declaration: Option<Declaration>)
    ensures declaration.Some? ==> Accepts(nodes, edges, declaration.value)
    ensures declaration.None? ==> !exists d :: Accepts(nodes, edges, d)
  {
    var parsedNodes := ParseNodes(nodes);
    if parsedNodes.None? {
      return None;
    }
    var ids := NodeIds(parsedNodes.value);
    var parsedEdges := ParseEdges(ids, edges);
    if parsedEdges.None? {
      return None;
    }
    forall d | Accepts(nodes, edges, d) ensures d.edges == parsedEdges.value {
    }
    var cyclic, _ := HasDirectedCycle(ids, parsedEdges.value);
    if cyclic {
      return None;
    }
    declaration := Some(Declaration(parsedNodes.value, parsedEdges.value));
  }

  // ---- nodeLevels ----

  ghost predicate EdgesOver(nodes: seq<Node>, edges: seq<Edge>) {
    forall e | e in edges :: e.from in NodeIds(nodes) && e.to in NodeIds(nodes)
  }

  ghost predicate ProperLevels(ids: set<Id>, E: set<(Id, Id)>, levels: map<Id, nat>) {
    levels.Keys == ids && Over(E, ids) && Witnessed(E, levels)
  }

  // Every target is above its source's level in `base`.
  ghost predicate Lifted(edges: seq<Edge>, base: map<Id, nat>, levels: map<Id, nat>) {
    forall e | e in edges ::
      e.from in base && e.to in levels && base[e.from] + 1 <= levels[e.to]
  }

  ghost predicate AtLeast(base: map<Id, nat>, levels: map<Id, nat>) {
    base.Keys == levels.Keys && forall v | v in base :: base[v] <= levels[v]
  }

  /** One pass: no level falls, and every target ends up above its source's old level. */
  method RelaxPass(ghost ids: set<Id>, edges: seq<Edge>, base: map<Id, nat>) returns (levels: map<Id, nat>,
        changed: bool)
    requires ProperLevels(ids, EdgeSet(edges), base)
    ensures ProperLevels(ids, EdgeSet(edges), levels) && AtLeast(base, levels) && Lifted(edges, base, levels)
    ensures !changed ==> levels == base
  {
    levels, changed := base, false;
    for n := 0 to |edges|
      invariant ProperLevels(ids, EdgeSet(edges), levels) && AtLeast(base, levels)
      invariant Lifted(edges[..n], base, levels)
      invariant !changed ==> levels == base
    {
      var edge := edges[n];
      TakeNext(edges, n);
      assert (edge.from, edge.to) in EdgeSet(edges);
      if levels[edge.from] + 1 > levels[edge.to] {
        RelaxWitnessed(EdgeSet(edges), levels, edge.from, edge.to);
        LiftStays(edges[..n], base, levels, levels[edge.to := levels[edge.from] + 1]);
        levels, changed := levels[edge.to := levels[edge.from] + 1], true;
      }
    }
    TakeAll(edges);
  }

  lemma LiftStays(edges: seq<Edge>, base: map<Id, nat>, levels: map<Id, nat>, higher: map<Id, nat>)
    requires Lifted(edges, base, levels) && AtLeast(levels, higher)
    ensures Lifted(edges, base, higher)
  {
  }

  lemma PassDone(edges: seq<Edge>, ids: set<Id>, base: map<Id, nat>, levels: map<Id, nat>, pass: nat)
    requires ProperLevels(ids, EdgeSet(edges), base) && Covers(EdgeSet(edges), base, pass)
    requires AtLeast(base, levels) && Lifted(edges, base, levels)
    ensures Covers(EdgeSet(edges), levels, pass + 1)
    ensures levels == base ==> Fixpoint(EdgeSet(edges), levels)
  {
    forall u, v | (u, v) in EdgeSet(edges) ensures base[u] + 1 <= levels[v] {
      var e :| e in edges && e.from == u && e.to == v;
    }
    PassCovers(EdgeSet(edges), base, levels, pass);
  }

  /** Breaking off early or running out of passes, the levels are a fixpoint: the longest path lengths. */
  method ComputeLevels(nodes: seq<Node>, edges: seq<Edge>) returns (levels: map<Id, nat>)
    requires EdgesOver(nodes, edges) && !HasCycle(EdgeSet(edges))
    ensures levels.Keys == Members(NodeIds(nodes)) && Over(EdgeSet(edges), levels.Keys)
    ensures forall v | v in levels :: LongestChain(EdgeSet(edges), v, levels[v])
  {
    ghost var ids := Members(NodeIds(nodes));
    levels := map v | v in NodeIds(nodes) :: 0;
    ZeroWitnessed(EdgeSet(edges), levels);
    for pass := 0 to |nodes|
      invariant ProperLevels(ids, EdgeSet(edges), levels) && Covers(EdgeSet(edges), levels, pass)
    {
      var next, changed := RelaxPass(ids, edges, levels);
      PassDone(edges, ids, levels, next, pass);
      levels := next;
      if !changed {
        FixpointIsLongest(EdgeSet(edges), levels);
        return;
      }
    }
    IdsSize(nodes);
    CoversIsLongest(EdgeSet(edges), levels, |nodes|);
  }

  // The levels and rows of the displayed graph: every row holds, in declaration order, the nodes whose
  // longest incoming path has as many edges as the row's index.
  ghost predicate IsLayout(nodes: seq<Node>, edges: seq<Edge>, rows: seq<seq<Node>>, level: Node -> nat) {
    && (forall n | n in nodes :: LongestChain(EdgeSet(edges), n.id, level(n)) && level(n) < |rows|)
    && (forall i | 0 <= i < |rows| :: rows[i] != [] && rows[i] == AtLevel(level, i, nodes))
  }

  // Row by row: the nodes whose longest incoming path has that many edges, and none left out.
  ghost predicate RowsAreLevels(nodes: seq<Node>, edges: seq<Edge>, rows: seq<seq<Node>>) {
    && (forall i | 0 <= i < |rows| :: rows[i] != [])
    && (forall i, n | 0 <= i < |rows| :: n in rows[i] <==> n in nodes && LongestChain(EdgeSet(edges), n.id, i))
    && (forall n | n in nodes :: exists i :: 0 <= i < |rows| && n in rows[i])
  }

  lemma LayoutRows(nodes: seq<Node>, edges: seq<Edge>, rows: seq<seq<Node>>, level: Node -> nat)
    requires IsLayout(nodes, edges, rows, level)
    ensures RowsAreLevels(nodes, edges, rows)
  {
    forall i, n | 0 <= i < |rows| ensures n in rows[i] <==> n in nodes && LongestChain(EdgeSet(edges), n.id, i) {
      AtLevelMembers(level, i, nodes);
      if n in nodes && LongestChain(EdgeSet(edges), n.id, i) {
        LongestIsUnique(EdgeSet(edges), n.id, i, level(n));
      }
    }
    forall n | n in nodes ensures exists i :: 0 <= i < |rows| && n in rows[i] {
      assert 0 <= level(n) < |rows| && LongestChain(EdgeSet(edges), n.id, level(n));
      assert n in rows[level(n)];
    }
  }

  method NodeLevels(nodes: seq<Node>, edges: seq<Edge>) returns (rows: seq<seq<Node>>, ghost level: Node -> nat)
    requires EdgesOver(nodes, edges) && !HasCycle(EdgeSet(edges))
    ensures RowsAreLevels(nodes, edges, rows)
    ensures IsLayout(nodes, edges, rows, level)
    ensures forall m, n | m in nodes && n in nodes && (m.id, n.id) in EdgeSet(edges) :: level(m) < level(n)
  {
    var levels := ComputeLevels(nodes, edges);
    var levelOf := (n: Node) => if n.id in levels then levels[n.id] else 0;
    level := levelOf;
    var entries := GroupByLevel(nodes, levelOf);
    LevelsHaveNoGaps(nodes, edges, levels, levelOf);
    RowIndexIsLevel(nodes, levelOf, entries, |entries|);
    rows := seq(|entries|, i requires 0 <= i < |entries| => entries[i].1);
    LevelsClimb(nodes, edges, levels, levelOf);
    RowsAreLayout(nodes, edges, levelOf, entries, rows);
    LayoutRows(nodes, edges, rows, levelOf);
  }

  lemma RowsAreLayout(nodes: seq<Node>, edges: seq<Edge>, level: Node -> nat, entries: seq<(nat, seq<Node>)>,
                      rows: seq<seq<Node>>)
    requires IsLayering(nodes, level, entries) && |rows| == |entries|
    requires forall i | 0 <= i < |rows| :: rows[i] == entries[i].1 && entries[i].0 == i
    requires forall n | n in nodes :: LongestChain(EdgeSet(edges), n.id, level(n))
    ensures IsLayout(nodes, edges, rows, level)
  {
    forall n | n in nodes ensures level(n) < |rows| {
      var i :| 0 <= i < |entries| && entries[i].0 == level(n);
    }
  }

  lemma LevelsClimb(nodes: seq<Node>, edges: seq<Edge>, levels: map<Id, nat>, level: Node -> nat)
    requires levels.Keys == Members(NodeIds(nodes))
    requires forall v | v in levels :: LongestChain(EdgeSet(edges), v, levels[v])
    requires forall n: Node :: level(n) == if n.id in levels then levels[n.id] else 0
    ensures forall n | n in nodes :: LongestChain(EdgeSet(edges), n.id, level(n))
    ensures forall m, n | m in nodes && n in nodes && (m.id, n.id) in EdgeSet(edges) :: level(m) < level(n)
  {
    forall n | n in nodes ensures n.id in levels {
      NodeHasId(nodes, n);
    }
    forall m, n | m in nodes && n in nodes && (m.id, n.id) in EdgeSet(edges) ensures level(m) < level(n) {
      LongestClimbs(EdgeSet(edges), levels, m.id, n.id);
    }
  }

  lemma NodeHasId(nodes: seq<Node>, n: Node)
    requires n in nodes
    ensures n.id in NodeIds(nodes)
  {
    var i :| 0 <= i < |nodes| && nodes[i] == n;
    assert NodeIds(nodes)[i] == n.id;
  }

  lemma LevelsHaveNoGaps(nodes: seq<Node>, edges: seq<Edge>, levels: map<Id, nat>, level: Node -> nat)
    requires levels.Keys == Members(NodeIds(nodes)) && Over(EdgeSet(edges), levels.Keys)
    requires forall v | v in levels :: LongestChain(EdgeSet(edges), v, levels[v])
    requires forall n: Node :: level(n) == if n.id in levels then levels[n.id] else 0
    ensures NoGaps(nodes, level)
  {
    forall d: nat, e: nat | d <= e && Occupied(nodes, level, e) ensures Occupied(nodes, level, d) {
      var n :| n in nodes && level(n) == e;
      NodeHasId(nodes, n);
      LongestContiguous(EdgeSet(edges), levels, n.id, d);
      var u :| u in levels && levels[u] == d;
      var i :| 0 <= i < |NodeIds(nodes)| && NodeIds(nodes)[i] == u;
      assert level(nodes[i]) == d;
    }
  }

  /** What the map shows of an accepted declaration: its main windows and the coordination edges between them. */
  function Displayed(declaration: Declaration): seq<Node> {
    Filter((n: Node) => n.kind.Main?, declaration.nodes)
  }

  function DisplayedEdges(declaration: Declaration): (edges: seq<Edge>)
    ensures forall e :: e in edges <==>
      (e in declaration.edges && e.kind.Coordination?
      && e.from in NodeIds(Displayed(declaration)) && e.to in NodeIds(Displayed(declaration)))
  {
    var ids := NodeIds(Displayed(declaration));
    var shown := (e: Edge) => e.kind.Coordination? && e.from in ids && e.to in ids;
    FilterMembers(shown, declaration.edges);
    Filter(shown, declaration.edges)
  }

  method DisplayRows(declaration: Declaration) returns (rows: seq<seq<Node>>, ghost level: Node -> nat)
    requires !HasCycle(EdgeSet(declaration.edges))
    ensures RowsAreLevels(Displayed(declaration), DisplayedEdges(declaration), rows)
    ensures IsLayout(Displayed(declaration), DisplayedEdges(declaration), rows, level)
    ensures forall m, n | m in Displayed(declaration) && n in Displayed(declaration)
      && (m.id, n.id) in EdgeSet(DisplayedEdges(declaration)) :: level(m) < level(n)
  {
    var displayedNodes := Displayed(declaration);
    var displayedEdges := DisplayedEdges(declaration);
    SubgraphAcyclic(EdgeSet(declaration.edges), EdgeSet(displayedEdges));
    rows, level := NodeLevels(displayedNodes, displayedEdges);
  }

  lemma IdsSize(nodes: seq<Node>)
    ensures |Members(NodeIds(nodes))| <= |nodes|
  {
    MembersSize(NodeIds(nodes));
  }

  lemma {:induction false} MembersSize(s: seq<Id>)
    ensures |Members(s)| <= |s|
  {
    if s != [] {
      MembersSize(s[1..]);
      assert Members(s) == {s[0]} + Members(s[1..]);
    }
  }
}
