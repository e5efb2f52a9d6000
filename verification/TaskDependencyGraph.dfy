/** The dependency graph of the cards below a task: leaf dependencies projected onto the cards that own
    their ends, mutually reachable cards grouped, and the groups layered by their longest prerequisite chain. */
module TaskDependencyGraph {
  import opened Common
  import opened Graphs
  import opened Layers
  import opened Sorting

  type Id = string

  datatype Reference = Reference(id: Id, externalKey: Option<string>, identifier: string) {
    function Key(): string { if externalKey.Some? then externalKey.value else identifier }
  }

  datatype Task = Task(id: Id, externalKey: Option<string>, identifier: string, parent: Option<Id>,
                       subIssues: seq<Id>, blockedBy: seq<Reference>) {
    function Key(): string { if externalKey.Some? then externalKey.value else identifier }
  }

  datatype Card = Card(id: Id, identifier: string)
  datatype Evidence = Evidence(from: string, to: string)
  datatype DependencyEdge = DependencyEdge(from: Id, to: Id, partial: bool, evidence: seq<Evidence>)
  datatype ExternalDependency = ExternalDependency(task: string, prerequisite: string)

  ghost predicate DistinctTasks(tasks: seq<Task>) {
    forall i, j | 0 <= i < j < |tasks| :: tasks[i].id != tasks[j].id
  }

  ghost predicate DistinctCards(cards: seq<Card>) {
    forall i, j | 0 <= i < j < |cards| :: cards[i].id != cards[j].id
  }

  ghost predicate IsCard(cards: seq<Card>, id: Id) {
    exists c :: c in cards && c.id == id
  }

  // ---- Containment and ownership ----

  // A task contains its sub-issues and every task that names it as its parent.
  ghost function Contains(tasks: seq<Task>): set<(Id, Id)> {
    (set t, s | t in tasks && s in t.subIssues :: (t.id, s))
    + (set t | t in tasks && t.parent.Some? :: (t.parent.value, t.id))
  }

  function Lookup(tasks: seq<Task>, id: Id): (r: Option<Task>)
    ensures r.Some? ==> r.value in tasks && r.value.id == id
    ensures r.None? ==> forall t | t in tasks :: t.id != id
  {
    if tasks == [] then None
    else if tasks[|tasks| - 1].id == id then Some(tasks[|tasks| - 1])
    else
      assert tasks == tasks[..|tasks| - 1] + [tasks[|tasks| - 1]];
      Lookup(tasks[..|tasks| - 1], id)
  }

  function TaskIds(tasks: seq<Task>): seq<Id> {
    seq(|tasks|, i requires 0 <= i < |tasks| => tasks[i].id)
  }

  function Contained(tasks: seq<Task>, id: Id): seq<Id> {
    var task := Lookup(tasks, id);
    (if task.Some? then task.value.subIssues else [])
    + TaskIds(Filter((t: Task) => t.parent == Some(id), tasks))
  }

  lemma ContainedAreSuccessors(tasks: seq<Task>, id: Id)
    requires DistinctTasks(tasks)
    ensures forall v :: v in Contained(tasks, id) <==> (id, v) in Contains(tasks)
  {
    var task := Lookup(tasks, id);
    var byParent := Filter((t: Task) => t.parent == Some(id), tasks);
    FilterMembers((t: Task) => t.parent == Some(id), tasks);
    forall v ensures v in Contained(tasks, id) <==> (id, v) in Contains(tasks) {
      if v in TaskIds(byParent) {
        var i :| 0 <= i < |byParent| && byParent[i].id == v;
        assert byParent[i] in byParent;
      }
      if (id, v) in Contains(tasks) {
        if t :| t in tasks && t.id == id && v in t.subIssues {
          assert task.value == t;
        } else {
          var t :| t in tasks && t.parent == Some(id) && t.id == v;
          assert t in byParent;
          var i :| 0 <= i < |byParent| && byParent[i] == t;
          assert TaskIds(byParent)[i] == v;
        }
      }
    }
  }

  /** Everything a card contains, itself included, however containment is shared or circular. */
  method Descendants(tasks: seq<Task>, card: Id) returns (found: set<Id>)
    requires DistinctTasks(tasks)
    ensures forall id :: id in found <==> Reaches(Contains(tasks), card, id)
  {
    ghost var E := Contains(tasks);
    found := {};
    var pending := [card];
    TraversalStart(E, card);
    while |pending| > 0
      invariant Traversal(E, card, found, pending)
      decreases Nodes(E) + {card} - found, |pending|
    {
      var id := pending[|pending| - 1];
      assert id in pending;
      if id in found {
        TraversalSkip(E, card, found, pending);
        pending := pending[..|pending| - 1];
      } else {
        TraversalRoom(E, card, found, id);
        ContainedAreSuccessors(tasks, id);
        TraversalExpand(E, card, found, pending, Contained(tasks, id));
        found, pending := found + {id}, pending[..|pending| - 1] + Contained(tasks, id);
      }
    }
    assert pending == [];
    TraversalDone(E, card, found);
  }

  // The descendants of each card.
  ghost predicate DescendantsOf(cards: seq<Card>, tasks: seq<Task>, descendants: map<Id, set<Id>>) {
    forall c | c in cards ::
      c.id in descendants && forall id :: id in descendants[c.id] <==> Reaches(Contains(tasks), c.id, id)
  }

  method CollectDescendants(cards: seq<Card>, tasks: seq<Task>) returns (descendants: map<Id, set<Id>>)
    requires DistinctTasks(tasks)
    ensures DescendantsOf(cards, tasks, descendants)
  {
    descendants := map[];
    for n := 0 to |cards|
      invariant DescendantsOf(cards[..n], tasks, descendants)
    {
      TakeNext(cards, n);
      var found := Descendants(tasks, cards[n].id);
      descendants := descendants[cards[n].id := found];
    }
    TakeAll(cards);
  }

  // `card` is the one card that contains `id`.
  ghost predicate UniqueOwner(cards: seq<Card>, tasks: seq<Task>, id: Id, card: Id) {
    && IsCard(cards, card)
    && Reaches(Contains(tasks), card, id)
    && forall c | c in cards && Reaches(Contains(tasks), c.id, id) :: c.id == card
  }

  function Owner(cards: seq<Card>, descendants: map<Id, set<Id>>, id: Id): Option<Id> {
    var matches := Filter((c: Card) => c.id in descendants && id in descendants[c.id], cards);
    if |matches| == 1 then Some(matches[0].id) else None
  }

  lemma OwnerIsUnique(cards: seq<Card>, tasks: seq<Task>, descendants: map<Id, set<Id>>, id: Id)
    requires DistinctCards(cards) && DescendantsOf(cards, tasks, descendants)
    ensures forall card :: Owner(cards, descendants, id) == Some(card) <==> UniqueOwner(cards, tasks, id, card)
  {
    var holds := (c: Card) => c.id in descendants && id in descendants[c.id];
    var matches := Filter(holds, cards);
    FilterMembers(holds, cards);
    FilterDistinct(holds, cards);
    if |matches| > 1 {
      assert matches[0] != matches[1];
    }
    forall card ensures Owner(cards, descendants, id) == Some(card) <==> UniqueOwner(cards, tasks, id, card) {
      if UniqueOwner(cards, tasks, id, card) {
        var c :| c in cards && c.id == card;
        assert c in matches;
        forall k | 0 <= k < |matches| ensures matches[k] == c {
          assert matches[k] in matches;
        }
      }
      if |matches| == 1 {
        assert matches[0] in matches;
      }
    }
  }

  // ---- Projection of dependencies onto cards ----

  // One leaf dependency between two different cards; `whole` when the cards themselves are its two ends.
  datatype Contribution = Contribution(from: Id, to: Id, whole: bool, pair: Evidence)

  function Contribute(owner: Id -> Option<Id>, target: Task, dependency: Reference): (c: Contribution)
    requires owner(target.id).Some? && owner(dependency.id).Some?
  {
    var from, to := owner(dependency.id).value, owner(target.id).value;
    Contribution(from, to, from == dependency.id && to == target.id, Evidence(dependency.Key(), target.Key()))
  }

  predicate Crosses(owner: Id -> Option<Id>, target: Task, dependency: Reference) {
    owner(target.id).Some? && owner(dependency.id).Some? && owner(target.id) != owner(dependency.id)
  }

  ghost function TaskContributions(owner: Id -> Option<Id>, target: Task,
        blockedBy: seq<Reference>): set<Contribution> {
    set d | d in blockedBy && Crosses(owner, target, d) :: Contribute(owner, target, d)
  }

  ghost function Contributions(owner: Id -> Option<Id>, tasks: seq<Task>): set<Contribution> {
    set t, d | t in tasks && d in t.blockedBy && Crosses(owner, t, d) :: Contribute(owner, t, d)
  }

  function TaskExternal(owner: Id -> Option<Id>, target: Task, blockedBy: seq<Reference>): seq<ExternalDependency> {
    if blockedBy == [] || owner(target.id).None? then []
    else
      var last := blockedBy[|blockedBy| - 1];
      TaskExternal(owner, target, blockedBy[..|blockedBy| - 1])
      + if owner(last.id).None? then [ExternalDependency(target.Key(), last.Key())] else []
  }

  function ExternalOf(owner: Id -> Option<Id>, tasks: seq<Task>): seq<ExternalDependency> {
    if tasks == [] then []
    else
      var last := tasks[|tasks| - 1];
      ExternalOf(owner, tasks[..|tasks| - 1]) + TaskExternal(owner, last, last.blockedBy)
  }

  predicate Between(e: DependencyEdge, from: Id, to: Id) {
    e.from == from && e.to == to
  }

  // `edges` is the projection of the contributions `C`: one edge for each pair of cards, partial unless some
  // contribution is whole, with each evidence pair once.
  ghost predicate Projects(edges: seq<DependencyEdge>, C: set<Contribution>) {
    && (forall i, j | 0 <= i < j < |edges| :: !Between(edges[j], edges[i].from, edges[i].to))
    && (forall c | c in C :: HasEdge(edges, c.from, c.to))
    && (forall e | e in edges :: EdgeProjects(e, C))
  }

  ghost predicate HasEdge(edges: seq<DependencyEdge>, from: Id, to: Id) {
    exists e :: e in edges && Between(e, from, to)
  }

  ghost predicate EdgeProjects(e: DependencyEdge, C: set<Contribution>) {
    && (exists c :: c in C && Between(e, c.from, c.to))
    && (e.partial <==> forall c | c in C && Between(e, c.from, c.to) :: !c.whole)
    && Distinct(e.evidence)
    && (forall pair :: pair in e.evidence <==> exists c :: c in C && Between(e, c.from, c.to) && c.pair == pair)
  }

  /** The position of the edge between two cards, or the end when there is none. */
  function EdgeIndex(edges: seq<DependencyEdge>, from: Id, to: Id): (k: nat)
    ensures k <= |edges|
    ensures k < |edges| ==> Between(edges[k], from, to)
    ensures k == |edges| ==> !HasEdge(edges, from, to)
  {
    if edges == [] then 0
    else if Between(edges[0], from, to) then 0
    else
      assert edges == [edges[0]] + edges[1..];
      1 + EdgeIndex(edges[1..], from, to)
  }

  function Widen(e: DependencyEdge, whole: bool, pair: Evidence): DependencyEdge {
    e.(partial := e.partial && !whole,
       evidence := if pair in e.evidence then e.evidence else e.evidence + [pair])
  }

  lemma WidenProjects(e: DependencyEdge, C: set<Contribution>, c: Contribution)
    requires EdgeProjects(e, C) && Between(e, c.from, c.to)
    ensures EdgeProjects(Widen(e, c.whole, c.pair), C + {c})
  {
    var w := Widen(e, c.whole, c.pair);
    forall pair ensures pair in w.evidence <==> exists d :: d in C + {c} && Between(w, d.from, d.to) && d.pair == pair {
      if pair == c.pair {
        assert c in C + {c} && Between(w, c.from, c.to);
      } else if pair in w.evidence {
        var d :| d in C && Between(e, d.from, d.to) && d.pair == pair;
        assert d in C + {c} && Between(w, d.from, d.to);
      }
    }
    assert c in C + {c} && Between(w, c.from, c.to);
  }

  lemma OtherEdgeProjects(e: DependencyEdge, C: set<Contribution>, c: Contribution)
    requires EdgeProjects(e, C) && !Between(e, c.from, c.to)
    ensures EdgeProjects(e, C + {c})
  {
    var d :| d in C && Between(e, d.from, d.to);
    assert d in C + {c};
    forall pair ensures pair in e.evidence <==> exists x :: x in C + {c} && Between(e, x.from, x.to) && x.pair == pair {
      if pair in e.evidence {
        var x :| x in C && Between(e, x.from, x.to) && x.pair == pair;
        assert x in C + {c};
      }
    }
  }

  // ---- The order of the projection ----

  // Each element once, in the order of the first occurrences.
  ghost function Firsts<T>(s: seq<T>): seq<T> {
    if s == [] then []
    else
      var earlier, last := Firsts(s[..|s| - 1]), s[|s| - 1];
      if last in earlier then earlier else earlier + [last]
  }

  /** Of two elements the one that is listed first has occurred before the other one. */
  lemma {:induction false} FirstsInOrder<T(!new)>(s: seq<T>, i: nat, k: nat)
    requires i < k < |Firsts(s)|
    ensures exists p :: 0 <= p < |s| && s[p] == Firsts(s)[i] && Firsts(s)[k] !in s[..p + 1]
  {
    var front := s[..|s| - 1];
    if k < |Firsts(front)| {
      FirstsInOrder(front, i, k);
      var p :| 0 <= p < |front| && front[p] == Firsts(front)[i] && Firsts(front)[k] !in front[..p + 1];
      assert s[..p + 1] == front[..p + 1];
    } else {
      FirstsMembers(front);
      assert Firsts(front)[i] in Firsts(front);
      assert Firsts(front)[i] in front;
      var p :| 0 <= p < |front| && front[p] == Firsts(front)[i];
      assert s[..p + 1] == front[..p + 1];
    }
  }

  lemma {:induction false} FirstsMembers<T(!new)>(s: seq<T>)
    ensures forall x :: x in Firsts(s) <==> x in s
  {
    if s != [] {
      FirstsMembers(s[..|s| - 1]);
      assert s == s[..|s| - 1] + [s[|s| - 1]];
    }
  }

  lemma {:induction false} FirstsPush<T(!new)>(s: seq<T>, x: T)
    ensures Firsts(s + [x]) == if x in s then Firsts(s) else Firsts(s) + [x]
  {
    FirstsMembers(s);
    FrontOfConcatenation(s, [x]);
  }

  // The contributions in the order of the loops.
  ghost function TaskList(owner: Id -> Option<Id>, target: Task, blockedBy: seq<Reference>): seq<Contribution> {
    if blockedBy == [] then []
    else
      var last := blockedBy[|blockedBy| - 1];
      TaskList(owner, target, blockedBy[..|blockedBy| - 1])
      + if Crosses(owner, target, last) then [Contribute(owner, target, last)] else []
  }

  ghost function ContributionList(owner: Id -> Option<Id>, tasks: seq<Task>): seq<Contribution> {
    if tasks == [] then []
    else
      var last := tasks[|tasks| - 1];
      ContributionList(owner, tasks[..|tasks| - 1]) + TaskList(owner, last, last.blockedBy)
  }

  ghost function Ends(list: seq<Contribution>): (ends: seq<(Id, Id)>)
    ensures |ends| == |list|
  {
    seq(|list|, i requires 0 <= i < |list| => (list[i].from, list[i].to))
  }

  // The evidence between two cards.
  ghost function PairsBetween(list: seq<Contribution>, from: Id, to: Id): seq<Evidence> {
    if list == [] then []
    else
      var last := list[|list| - 1];
      PairsBetween(list[..|list| - 1], from, to) + if last.from == from && last.to == to then [last.pair] else []
  }

  // Edges stand in the order in which their cards were first joined, and so does the evidence of each edge.
  ghost predicate InOrder(edges: seq<DependencyEdge>, list: seq<Contribution>) {
    && |edges| == |Firsts(Ends(list))|
    && forall i | 0 <= i < |edges| :: EdgeInOrder(edges[i], Firsts(Ends(list))[i], list)
  }

  ghost predicate EdgeInOrder(e: DependencyEdge, ends: (Id, Id), list: seq<Contribution>) {
    (e.from, e.to) == ends && e.evidence == Firsts(PairsBetween(list, e.from, e.to))
  }

  lemma {:induction false} PairsPush(list: seq<Contribution>, c: Contribution, from: Id, to: Id)
    ensures PairsBetween(list + [c], from, to)
      == PairsBetween(list, from, to) + if c.from == from && c.to == to then [c.pair] else []
  {
    FrontOfConcatenation(list, [c]);
  }

  lemma {:induction false} NoPairs(list: seq<Contribution>, from: Id, to: Id)
    requires (from, to) !in Ends(list)
    ensures PairsBetween(list, from, to) == []
  {
    if list != [] {
      var front := list[..|list| - 1];
      assert Ends(list)[|list| - 1] != (from, to);
      forall i | 0 <= i < |front| ensures Ends(front)[i] != (from, to) {
        assert Ends(list)[i] == Ends(front)[i];
      }
      NoPairs(front, from, to);
    }
  }

  // Which cards are joined already.
  lemma JoinedAlready(edges: seq<DependencyEdge>, list: seq<Contribution>, from: Id, to: Id)
    requires InOrder(edges, list)
    ensures (from, to) in Ends(list) <==> HasEdge(edges, from, to)
  {
    FirstsMembers(Ends(list));
    if (from, to) in Ends(list) {
      var i :| 0 <= i < |edges| && Firsts(Ends(list))[i] == (from, to);
      assert EdgeInOrder(edges[i], Firsts(Ends(list))[i], list);
      assert edges[i] in edges && Between(edges[i], from, to);
    }
    if HasEdge(edges, from, to) {
      var e :| e in edges && Between(e, from, to);
      var i :| 0 <= i < |edges| && edges[i] == e;
      assert EdgeInOrder(edges[i], Firsts(Ends(list))[i], list);
    }
  }

  lemma EdgeWidenedInOrder(e: DependencyEdge, ends: (Id, Id), list: seq<Contribution>, c: Contribution)
    requires EdgeInOrder(e, ends, list) && Between(e, c.from, c.to)
    ensures EdgeInOrder(Widen(e, c.whole, c.pair), ends, list + [c])
  {
    var pairs := PairsBetween(list, e.from, e.to);
    PairsPush(list, c, e.from, e.to);
    FirstsPush(pairs, c.pair);
    FirstsMembers(pairs);
  }

  lemma EdgeStaysInOrder(e: DependencyEdge, ends: (Id, Id), list: seq<Contribution>, c: Contribution)
    requires EdgeInOrder(e, ends, list) && !Between(e, c.from, c.to)
    ensures EdgeInOrder(e, ends, list + [c])
  {
    PairsPush(list, c, e.from, e.to);
    assert PairsBetween(list, e.from, e.to) + [] == PairsBetween(list, e.from, e.to);
  }

  lemma FreshEdgeInOrder(list: seq<Contribution>, c: Contribution)
    requires (c.from, c.to) !in Ends(list)
    ensures EdgeInOrder(Widen(DependencyEdge(c.from, c.to, true, []), c.whole, c.pair), (c.from, c.to), list + [c])
  {
    NoPairs(list, c.from, c.to);
    PairsPush(list, c, c.from, c.to);
    FirstsPush([], c.pair);
    assert [] + [c.pair] == [c.pair];
  }

  lemma EndsPush(list: seq<Contribution>, c: Contribution)
    ensures Firsts(Ends(list + [c]))
      == if (c.from, c.to) in Ends(list) then Firsts(Ends(list)) else Firsts(Ends(list)) + [(c.from, c.to)]
  {
    assert Ends(list + [c]) == Ends(list) + [(c.from, c.to)];
    FirstsPush(Ends(list), (c.from, c.to));
  }

  // Another contribution widens the edge between its cards ...
  lemma OrderWidened(edges: seq<DependencyEdge>, list: seq<Contribution>, c: Contribution, k: nat)
    requires InOrder(edges, list) && HasEdge(edges, c.from, c.to) && k < |edges| && Between(edges[k], c.from, c.to)
    requires forall i | 0 <= i < |edges| && i != k :: !Between(edges[i], c.from, c.to)
    ensures InOrder(edges[k := Widen(edges[k], c.whole, c.pair)], list + [c])
  {
    JoinedAlready(edges, list, c.from, c.to);
    EndsPush(list, c);
    OthersInOrder(edges, list, c, k);
    EdgeWidenedInOrder(edges[k], Firsts(Ends(list))[k], list, c);
    OneReplaced(edges, Firsts(Ends(list)), list + [c], k, Widen(edges[k], c.whole, c.pair));
  }

  lemma OthersInOrder(edges: seq<DependencyEdge>, list: seq<Contribution>, c: Contribution, k: nat)
    requires InOrder(edges, list)
    requires forall i | 0 <= i < |edges| && i != k :: !Between(edges[i], c.from, c.to)
    ensures forall i | 0 <= i < |edges| && i != k :: EdgeInOrder(edges[i], Firsts(Ends(list))[i], list + [c])
  {
    forall i | 0 <= i < |edges| && i != k ensures EdgeInOrder(edges[i], Firsts(Ends(list))[i], list + [c]) {
      EdgeStaysInOrder(edges[i], Firsts(Ends(list))[i], list, c);
    }
  }

  lemma OneReplaced(edges: seq<DependencyEdge>, ends: seq<(Id, Id)>, list: seq<Contribution>, k: nat,
                    edge: DependencyEdge)
    requires |edges| == |ends| && Firsts(Ends(list)) == ends && k < |edges| && EdgeInOrder(edge, ends[k], list)
    requires forall i | 0 <= i < |edges| && i != k :: EdgeInOrder(edges[i], ends[i], list)
    ensures InOrder(edges[k := edge], list)
  {
  }

  // ... or adds one at the end.
  lemma OrderExtended(edges: seq<DependencyEdge>, list: seq<Contribution>, c: Contribution)
    requires InOrder(edges, list) && !HasEdge(edges, c.from, c.to)
    ensures InOrder(edges + [Widen(DependencyEdge(c.from, c.to, true, []), c.whole, c.pair)], list + [c])
  {
    JoinedAlready(edges, list, c.from, c.to);
    EndsPush(list, c);
    FreshEdgeInOrder(list, c);
    forall i | 0 <= i < |edges| ensures EdgeInOrder(edges[i], Firsts(Ends(list))[i], list + [c]) {
      assert edges[i] in edges;
      EdgeStaysInOrder(edges[i], Firsts(Ends(list))[i], list, c);
    }
  }

  method AddContribution(edges: seq<DependencyEdge>, c: Contribution, ghost C: set<Contribution>,
                         ghost list: seq<Contribution>)
    returns (next: seq<DependencyEdge>)
    requires Projects(edges, C) && InOrder(edges, list)
    ensures Projects(next, C + {c}) && InOrder(next, list + [c])
  {
    var k := EdgeIndex(edges, c.from, c.to);
    if k < |edges| {
      var edge := Widen(edges[k], c.whole, c.pair);
      next := edges[k := edge];
      WidenProjects(edges[k], C, c);
      OthersElsewhere(edges, C, c, k);
      OrderWidened(edges, list, c, k);
    } else {
      var edge := Widen(DependencyEdge(c.from, c.to, true, []), c.whole, c.pair);
      next := edges + [edge];
      FreshEdge(edges, C, c, edge);
      OrderExtended(edges, list, c);
    }
    ProjectsAfter(edges, C, c, k, next);
  }

  lemma OthersElsewhere(edges: seq<DependencyEdge>, C: set<Contribution>, c: Contribution, k: nat)
    requires Projects(edges, C) && k < |edges| && Between(edges[k], c.from, c.to)
    ensures HasEdge(edges, c.from, c.to)
    ensures forall i | 0 <= i < |edges| && i != k :: !Between(edges[i], c.from, c.to)
  {
    assert edges[k] in edges;
  }

  lemma FreshEdge(edges: seq<DependencyEdge>, C: set<Contribution>, c: Contribution, edge: DependencyEdge)
    requires Projects(edges, C) && !HasEdge(edges, c.from, c.to)
    requires edge == Widen(DependencyEdge(c.from, c.to, true, []), c.whole, c.pair)
    ensures EdgeProjects(edge, C + {c})
  {
    forall d | d in C + {c} && Between(edge, d.from, d.to) ensures d == c {
    }
    assert c in C + {c} && Between(edge, c.from, c.to);
  }

  lemma ProjectsAfter(edges: seq<DependencyEdge>, C: set<Contribution>, c: Contribution, k: nat,
        next: seq<DependencyEdge>)
    requires Projects(edges, C) && k <= |edges|
    requires k < |edges| ==> Between(edges[k], c.from, c.to) && |next| == |edges|
    requires k == |edges| ==> !HasEdge(edges, c.from, c.to) && |next| == |edges| + 1
    requires forall i | 0 <= i < |edges| && i != k :: next[i] == edges[i]
    requires Between(next[k], c.from, c.to) && EdgeProjects(next[k], C + {c})
    ensures Projects(next, C + {c})
  {
    forall i | 0 <= i < |edges| && i != k ensures !Between(next[i], c.from, c.to) && EdgeProjects(next[i], C + {c}) {
      assert edges[i] in edges;
      OtherEdgeProjects(edges[i], C, c);
    }
    assert next[k] in next;
    forall d | d in C + {c} ensures HasEdge(next, d.from, d.to) {
      if d != c {
        var e :| e in edges && Between(e, d.from, d.to);
        var i :| 0 <= i < |edges| && edges[i] == e;
        assert next[i] in next && Between(next[i], d.from, d.to);
      }
    }
  }

  /** The projection loop: the edges are the projection of all contributions in the order in which the loops come to
      them, the rest is external. */
  method ProjectEdges(owner: Id -> Option<Id>, tasks: seq<Task>)
    returns (edges: seq<DependencyEdge>, external: seq<ExternalDependency>)
    ensures Projects(edges, Contributions(owner, tasks)) && InOrder(edges, ContributionList(owner, tasks))
    ensures external == ExternalOf(owner, tasks)
  {
    edges, external := [], [];
    for n := 0 to |tasks|
      invariant Projects(edges, Contributions(owner, tasks[..n]))
      invariant InOrder(edges, ContributionList(owner, tasks[..n]))
      invariant external == ExternalOf(owner, tasks[..n])
    {
      assert tasks[..n + 1][..n] == tasks[..n];
      edges, external := ProjectTask(owner, tasks[n], edges, external, Contributions(owner, tasks[..n]),
        ContributionList(owner, tasks[..n]));
      OneMoreTask(owner, tasks, n);
    }
    TakeAll(tasks);
  }

  lemma OneMoreTask(owner: Id -> Option<Id>, tasks: seq<Task>, n: nat)
    requires n < |tasks|
    ensures Contributions(owner, tasks[..n + 1])
      == Contributions(owner, tasks[..n]) + TaskContributions(owner, tasks[n], tasks[n].blockedBy)
    ensures ContributionList(owner, tasks[..n + 1])
      == ContributionList(owner, tasks[..n]) + TaskList(owner, tasks[n], tasks[n].blockedBy)
  {
    TakeNext(tasks, n);
    FrontOfConcatenation(tasks[..n], [tasks[n]]);
  }

  lemma {:induction false} OneMoreDependency(owner: Id -> Option<Id>, target: Task, blockedBy: seq<Reference>, n: nat,
        C: set<Contribution>, list: seq<Contribution>, external: seq<ExternalDependency>)
    requires n < |blockedBy| && owner(target.id).Some?
    ensures Crosses(owner, target, blockedBy[n]) ==>
      && C + TaskContributions(owner, target, blockedBy[..n + 1])
        == C + TaskContributions(owner, target, blockedBy[..n]) + {Contribute(owner, target, blockedBy[n])}
      && list + TaskList(owner, target, blockedBy[..n + 1])
        == (list + TaskList(owner, target, blockedBy[..n])) + [Contribute(owner, target, blockedBy[n])]
    ensures !Crosses(owner, target, blockedBy[n]) ==>
      && C + TaskContributions(owner, target, blockedBy[..n + 1])
        == C + TaskContributions(owner, target, blockedBy[..n])
      && TaskList(owner, target, blockedBy[..n + 1]) == TaskList(owner, target, blockedBy[..n])
    ensures owner(blockedBy[n].id).None? ==>
      external + TaskExternal(owner, target, blockedBy[..n + 1])
        == (external + TaskExternal(owner, target, blockedBy[..n]))
          + [ExternalDependency(target.Key(), blockedBy[n].Key())]
    ensures owner(blockedBy[n].id).Some? ==>
      TaskExternal(owner, target, blockedBy[..n + 1]) == TaskExternal(owner, target, blockedBy[..n])
  {
    TakeNext(blockedBy, n);
  }

  lemma {:induction false} UnownedGivesNothing(owner: Id -> Option<Id>, target: Task, blockedBy: seq<Reference>)
    requires owner(target.id).None?
    ensures TaskList(owner, target, blockedBy) == []
  {
    if blockedBy != [] {
      UnownedGivesNothing(owner, target, blockedBy[..|blockedBy| - 1]);
    }
  }

  method ProjectTask(owner: Id -> Option<Id>, target: Task, edges0: seq<DependencyEdge>,
                     external0: seq<ExternalDependency>, ghost C: set<Contribution>, ghost list: seq<Contribution>)
    returns (edges: seq<DependencyEdge>, external: seq<ExternalDependency>)
    requires Projects(edges0, C) && InOrder(edges0, list)
    ensures Projects(edges, C + TaskContributions(owner, target, target.blockedBy))
    ensures InOrder(edges, list + TaskList(owner, target, target.blockedBy))
    ensures external == external0 + TaskExternal(owner, target, target.blockedBy)
  {
    edges, external := edges0, external0;
    NothingAdded(owner, target, C, list);
    if owner(target.id).None? {
      return;
    }
    for n := 0 to |target.blockedBy|
      invariant Projects(edges, C + TaskContributions(owner, target, target.blockedBy[..n]))
      invariant InOrder(edges, list + TaskList(owner, target, target.blockedBy[..n]))
      invariant external == external0 + TaskExternal(owner, target, target.blockedBy[..n])
    {
      var dependency := target.blockedBy[n];
      ghost var D := C + TaskContributions(owner, target, target.blockedBy[..n]);
      ghost var earlier := list + TaskList(owner, target, target.blockedBy[..n]);
      OneMoreDependency(owner, target, target.blockedBy, n, C, list, external0);
      if owner(dependency.id).None? {
        external := external + [ExternalDependency(target.Key(), dependency.Key())];
      } else if owner(dependency.id) != owner(target.id) {
        edges := AddContribution(edges, Contribute(owner, target, dependency), D, earlier);
      }
    }
    TakeAll(target.blockedBy);
  }

  // Before the first dependency, and for a task that no single card owns.
  lemma {:induction false} NothingAdded(owner: Id -> Option<Id>, target: Task, C: set<Contribution>,
        list: seq<Contribution>)
    ensures C + TaskContributions(owner, target, []) == C && list + TaskList(owner, target, []) == list
    ensures owner(target.id).None? ==>
      && C + TaskContributions(owner, target, target.blockedBy) == C
      && list + TaskList(owner, target, target.blockedBy) == list
  {
    if owner(target.id).None? {
      UnownedGivesNothing(owner, target, target.blockedBy);
    }
  }

  // ---- What the edges mean ----

  // Some leaf dependency has exactly these two owners.
  ghost predicate LeafDependency(cards: seq<Card>, tasks: seq<Task>, target: Task, dependency: Reference, from: Id,
        to: Id) {
    && target in tasks && dependency in target.blockedBy
    && UniqueOwner(cards, tasks, dependency.id, from) && UniqueOwner(cards, tasks, target.id, to)
    && from != to
  }

  ghost predicate Owners(cards: seq<Card>, tasks: seq<Task>, owner: Id -> Option<Id>) {
    forall id, card :: owner(id) == Some(card) <==> UniqueOwner(cards, tasks, id, card)
  }

  // An edge joins two cards exactly when some leaf dependency has them as its two distinct unique owners, and it
  // is whole exactly when the two cards are themselves such a dependency.
  ghost predicate EdgesFaithful(cards: seq<Card>, tasks: seq<Task>, edges: seq<DependencyEdge>) {
    && (forall from, to :: HasEdge(edges, from, to) <==>
          exists t, d :: LeafDependency(cards, tasks, t, d, from, to))
    && (forall e | e in edges :: !e.partial <==>
          exists t, d :: LeafDependency(cards, tasks, t, d, e.from, e.to) && d.id == e.from && t.id == e.to)
    && (forall e | e in edges :: Distinct(e.evidence) && forall pair :: pair in e.evidence <==>
          exists t, d :: LeafDependency(cards, tasks, t, d, e.from, e.to) && pair == Evidence(d.Key(), t.Key()))
    && (forall i, j | 0 <= i < j < |edges| :: !Between(edges[j], edges[i].from, edges[i].to))
  }

  ghost function LeafContribution(t: Task, d: Reference, from: Id, to: Id): Contribution {
    Contribution(from, to, d.id == from && t.id == to, Evidence(d.Key(), t.Key()))
  }

  lemma ContributionMeans(cards: seq<Card>, tasks: seq<Task>, owner: Id -> Option<Id>, c: Contribution)
    requires Owners(cards, tasks, owner)
    ensures c in Contributions(owner, tasks) <==>
      exists t, d :: LeafDependency(cards, tasks, t, d, c.from, c.to) && c == LeafContribution(t, d, c.from, c.to)
  {
    if c in Contributions(owner, tasks) {
      var t, d :| t in tasks && d in t.blockedBy && Crosses(owner, t, d) && c == Contribute(owner, t, d);
      assert LeafDependency(cards, tasks, t, d, c.from, c.to);
    }
    if t, d :| LeafDependency(cards, tasks, t, d, c.from, c.to) && c == LeafContribution(t, d, c.from, c.to) {
      assert owner(d.id) == Some(c.from) && owner(t.id) == Some(c.to);
      assert c == Contribute(owner, t, d);
    }
  }

  lemma EdgeExists(cards: seq<Card>, tasks: seq<Task>, owner: Id -> Option<Id>, edges: seq<DependencyEdge>, from: Id,
        to: Id)
    requires Owners(cards, tasks, owner) && Projects(edges, Contributions(owner, tasks))
    ensures HasEdge(edges, from, to) <==> exists t, d :: LeafDependency(cards, tasks, t, d, from, to)
  {
    if HasEdge(edges, from, to) {
      var e :| e in edges && Between(e, from, to);
      assert EdgeProjects(e, Contributions(owner, tasks));
      var c :| c in Contributions(owner, tasks) && Between(e, c.from, c.to);
      ContributionMeans(cards, tasks, owner, c);
    }
    if t, d :| LeafDependency(cards, tasks, t, d, from, to) {
      ContributionMeans(cards, tasks, owner, LeafContribution(t, d, from, to));
    }
  }

  lemma EdgeIsWhole(cards: seq<Card>, tasks: seq<Task>, owner: Id -> Option<Id>, e: DependencyEdge)
    requires Owners(cards, tasks, owner) && EdgeProjects(e, Contributions(owner, tasks))
    ensures !e.partial <==>
      exists t, d :: LeafDependency(cards, tasks, t, d, e.from, e.to) && d.id == e.from && t.id == e.to
  {
    if !e.partial {
      var c :| c in Contributions(owner, tasks) && Between(e, c.from, c.to) && c.whole;
      ContributionMeans(cards, tasks, owner, c);
    }
    if t, d :| LeafDependency(cards, tasks, t, d, e.from, e.to) && d.id == e.from && t.id == e.to {
      ContributionMeans(cards, tasks, owner, LeafContribution(t, d, e.from, e.to));
    }
  }

  lemma EdgeEvidence(cards: seq<Card>, tasks: seq<Task>, owner: Id -> Option<Id>, e: DependencyEdge, pair: Evidence)
    requires Owners(cards, tasks, owner) && EdgeProjects(e, Contributions(owner, tasks))
    ensures pair in e.evidence <==>
      exists t, d :: LeafDependency(cards, tasks, t, d, e.from, e.to) && pair == Evidence(d.Key(), t.Key())
  {
    if pair in e.evidence {
      var c :| c in Contributions(owner, tasks) && Between(e, c.from, c.to) && c.pair == pair;
      ContributionMeans(cards, tasks, owner, c);
    }
    if t, d :| LeafDependency(cards, tasks, t, d, e.from, e.to) && pair == Evidence(d.Key(), t.Key()) {
      ContributionMeans(cards, tasks, owner, LeafContribution(t, d, e.from, e.to));
    }
  }

  lemma ProjectionIsFaithful(cards: seq<Card>, tasks: seq<Task>, owner: Id -> Option<Id>, edges: seq<DependencyEdge>)
    requires Owners(cards, tasks, owner) && Projects(edges, Contributions(owner, tasks))
    ensures EdgesFaithful(cards, tasks, edges)
  {
    forall from, to ensures HasEdge(edges, from, to) <==> exists t, d :: LeafDependency(cards, tasks, t, d, from, to) {
      EdgeExists(cards, tasks, owner, edges, from, to);
    }
    forall e | e in edges ensures !e.partial <==>
      exists t, d :: LeafDependency(cards, tasks, t, d, e.from, e.to) && d.id == e.from && t.id == e.to {
      EdgeIsWhole(cards, tasks, owner, e);
    }
    forall e, pair | e in edges ensures pair in e.evidence <==>
      exists t, d :: LeafDependency(cards, tasks, t, d, e.from, e.to) && pair == Evidence(d.Key(), t.Key()) {
      EdgeEvidence(cards, tasks, owner, e, pair);
    }
  }

  lemma {:induction false} TaskExternalMeans(owner: Id -> Option<Id>, t: Task, blockedBy: seq<Reference>,
        x: ExternalDependency)
    ensures x in TaskExternal(owner, t, blockedBy) <==>
      exists d :: d in blockedBy && owner(t.id).Some? && owner(d.id).None? && x == ExternalDependency(t.Key(), d.Key())
  {
    if blockedBy != [] && owner(t.id).Some? {
      TaskExternalMeans(owner, t, blockedBy[..|blockedBy| - 1], x);
      assert blockedBy == blockedBy[..|blockedBy| - 1] + [blockedBy[|blockedBy| - 1]];
    }
  }

  /** External prerequisites are those of owned tasks whose own owner is missing or ambiguous. */
  lemma {:induction false} ExternalMeans(owner: Id -> Option<Id>, tasks: seq<Task>, x: ExternalDependency)
    ensures x in ExternalOf(owner, tasks) <==> exists t, d ::
      t in tasks && d in t.blockedBy && owner(t.id).Some? && owner(d.id).None?
      && x == ExternalDependency(t.Key(), d.Key())
  {
    if tasks != [] {
      var last := tasks[|tasks| - 1];
      ExternalMeans(owner, tasks[..|tasks| - 1], x);
      TaskExternalMeans(owner, last, last.blockedBy, x);
      assert tasks == tasks[..|tasks| - 1] + [last];
    }
  }

  // ---- Groups of mutually reachable cards ----

  ghost function OrderingSet(ordering: seq<DependencyEdge>): set<(Id, Id)> {
    set e | e in ordering :: (e.from, e.to)
  }

  function EdgeTargets(edges: seq<DependencyEdge>): seq<Id> {
    seq(|edges|, i requires 0 <= i < |edges| => edges[i].to)
  }

  lemma {:induction false} TargetsAreSuccessors(ordering: seq<DependencyEdge>, id: Id)
    ensures forall v ::
      v in EdgeTargets(Filter((e: DependencyEdge) => e.from == id, ordering)) <==> (id, v) in OrderingSet(ordering)
  {
    var leaving := Filter((e: DependencyEdge) => e.from == id, ordering);
    FilterMembers((e: DependencyEdge) => e.from == id, ordering);
    forall v ensures v in EdgeTargets(leaving) <==> (id, v) in OrderingSet(ordering) {
      if v in EdgeTargets(leaving) {
        var i :| 0 <= i < |leaving| && leaving[i].to == v;
        assert leaving[i] in leaving;
      }
      if (id, v) in OrderingSet(ordering) {
        var e :| e in ordering && e.from == id && e.to == v;
        var i :| 0 <= i < |leaving| && leaving[i] == e;
        assert EdgeTargets(leaving)[i] == v;
      }
    }
  }

  /** The cards that a card must precede, itself included. */
  method Reachable(ordering: seq<DependencyEdge>, id: Id) returns (result: set<Id>)
    ensures forall v :: v in result <==> Reaches(OrderingSet(ordering), id, v)
  {
    ghost var E := OrderingSet(ordering);
    result := {};
    var pending := [id];
    TraversalStart(E, id);
    while |pending| > 0
      invariant Traversal(E, id, result, pending)
      decreases Nodes(E) + {id} - result, |pending|
    {
      var next := pending[|pending| - 1];
      assert next in pending;
      if next in result {
        TraversalSkip(E, id, result, pending);
        pending := pending[..|pending| - 1];
      } else {
        TraversalRoom(E, id, result, next);
        TargetsAreSuccessors(ordering, next);
        var targets := EdgeTargets(Filter((e: DependencyEdge) => e.from == next, ordering));
        TraversalExpand(E, id, result, pending, targets);
        result, pending := result + {next}, pending[..|pending| - 1] + targets;
      }
    }
    assert pending == [];
    TraversalDone(E, id, result);
  }

  ghost predicate Mutual(E: set<(Id, Id)>, a: Id, b: Id) {
    Reaches(E, a, b) && Reaches(E, b, a)
  }

  // The groups so far: classes of mutual reachability, no two of which overlap.
  ghost predicate Classes(cards: seq<Card>, E: set<(Id, Id)>, groups: seq<seq<Id>>) {
    && (forall g | 0 <= g < |groups| :: groups[g] != [])
    && (forall g, a | 0 <= g < |groups| && a in groups[g] :: IsCard(cards, a))
    && (forall g, a, b | 0 <= g < |groups| && a in groups[g] && IsCard(cards, b) :: b in groups[g] <==> Mutual(E, a, b))
    && (forall g, h, a | 0 <= g < |groups| && 0 <= h < |groups| && a in groups[g] && a in groups[h] :: g == h)
  }

  ghost predicate Grouped(groups: seq<seq<Id>>, id: Id) {
    exists g :: 0 <= g < |groups| && id in groups[g]
  }

  // A partition of the cards into the classes of mutual reachability.
  ghost predicate IsPartition(cards: seq<Card>, E: set<(Id, Id)>, groups: seq<seq<Id>>) {
    Classes(cards, E, groups) && forall c | c in cards :: Grouped(groups, c.id)
  }

  /** The position of the group of a card, or the end when it has none. */
  function GroupOf(groups: seq<seq<Id>>, id: Id): (k: nat)
    ensures k <= |groups| && (k < |groups| ==> id in groups[k])
    ensures k == |groups| <==> !Grouped(groups, id)
  {
    if groups == [] then 0
    else if id in groups[0] then 0
    else
      assert groups == [groups[0]] + groups[1..];
      assert Grouped(groups, id) <==> Grouped(groups[1..], id) by { GroupedTail(groups, id); }
      1 + GroupOf(groups[1..], id)
  }

  lemma GroupedTail(groups: seq<seq<Id>>, id: Id)
    requires groups != [] && id !in groups[0]
    ensures Grouped(groups, id) <==> Grouped(groups[1..], id)
  {
    if Grouped(groups, id) {
      var g :| 0 <= g < |groups| && id in groups[g];
      assert id in groups[1..][g - 1];
    }
    if Grouped(groups[1..], id) {
      var g :| 0 <= g < |groups[1..]| && id in groups[1..][g];
      assert id in groups[g + 1];
    }
  }

  function CardIds(cards: seq<Card>): seq<Id> {
    seq(|cards|, i requires 0 <= i < |cards| => cards[i].id)
  }

  method GroupCards(cards: seq<Card>, ordering: seq<DependencyEdge>) returns (groups: seq<seq<Id>>)
    ensures IsPartition(cards, OrderingSet(ordering), groups)
  {
    ghost var E := OrderingSet(ordering);
    var reach := CollectReach(cards, ordering);
    groups := [];
    for n := 0 to |cards|
      invariant Classes(cards, E, groups)
      invariant forall i | 0 <= i < n :: Grouped(groups, cards[i].id)
    {
      var id := cards[n].id;
      assert cards[n] in cards;
      if GroupOf(groups, id) == |groups| {
        var members := CardIds(Filter((c: Card) => c.id in reach[id] && c.id in reach && id in reach[c.id], cards));
        ClassMembers(cards, E, reach, id);
        OneMoreClass(cards, E, groups, n, members);
        groups := groups + [members];
      }
    }
  }

  lemma OneMoreClass(cards: seq<Card>, E: set<(Id, Id)>, groups: seq<seq<Id>>, n: nat, members: seq<Id>)
    requires n < |cards| && Classes(cards, E, groups) && !Grouped(groups, cards[n].id)
    requires forall i | 0 <= i < n :: Grouped(groups, cards[i].id)
    requires forall b :: b in members <==> IsCard(cards, b) && Mutual(E, cards[n].id, b)
    ensures Classes(cards, E, groups + [members])
    ensures forall i | 0 <= i <= n :: Grouped(groups + [members], cards[i].id)
  {
    assert cards[n] in cards;
    NewClass(cards, E, groups, cards[n].id, members);
    GroupsKept(groups, members);
    assert cards[n].id in (groups + [members])[|groups|];
  }

  method CollectReach(cards: seq<Card>, ordering: seq<DependencyEdge>) returns (reach: map<Id, set<Id>>)
    ensures forall c | c in cards ::
      c.id in reach && forall v :: v in reach[c.id] <==> Reaches(OrderingSet(ordering), c.id, v)
  {
    reach := map[];
    for n := 0 to |cards|
      invariant forall c | c in cards[..n] ::
        c.id in reach && forall v :: v in reach[c.id] <==> Reaches(OrderingSet(ordering), c.id, v)
    {
      TakeNext(cards, n);
      var found := Reachable(ordering, cards[n].id);
      reach := reach[cards[n].id := found];
    }
    TakeAll(cards);
  }

  lemma {:induction false} ClassMembers(cards: seq<Card>, E: set<(Id, Id)>, reach: map<Id, set<Id>>, id: Id)
    requires IsCard(cards, id)
    requires forall c | c in cards :: c.id in reach && forall v :: v in reach[c.id] <==> Reaches(E, c.id, v)
    ensures id in reach
    ensures var members := CardIds(Filter((c: Card) => c.id in reach[id] && c.id in reach && id in reach[c.id], cards));
      forall b :: b in members <==> IsCard(cards, b) && Mutual(E, id, b)
  {
    var p := (c: Card) => c.id in reach[id] && c.id in reach && id in reach[c.id];
    var chosen := Filter(p, cards);
    FilterMembers(p, cards);
    forall b ensures b in CardIds(chosen) <==> IsCard(cards, b) && Mutual(E, id, b) {
      if b in CardIds(chosen) {
        var i :| 0 <= i < |chosen| && chosen[i].id == b;
        assert chosen[i] in chosen;
      }
      if IsCard(cards, b) && Mutual(E, id, b) {
        var c :| c in cards && c.id == b;
        assert c in chosen;
        var i :| 0 <= i < |chosen| && chosen[i] == c;
        assert CardIds(chosen)[i] == b;
      }
    }
  }

  lemma MutualEquivalence(E: set<(Id, Id)>, a: Id, b: Id, c: Id)
    requires Mutual(E, a, b)
    ensures Mutual(E, a, c) <==> Mutual(E, b, c)
  {
    if Mutual(E, a, c) {
      ReachesTrans(E, b, a, c);
      ReachesTrans(E, c, a, b);
    }
    if Mutual(E, b, c) {
      ReachesTrans(E, a, b, c);
      ReachesTrans(E, c, b, a);
    }
  }

  lemma GroupsKept(groups: seq<seq<Id>>, members: seq<Id>)
    ensures forall id | Grouped(groups, id) :: Grouped(groups + [members], id)
  {
    forall id | Grouped(groups, id) ensures Grouped(groups + [members], id) {
      var g :| 0 <= g < |groups| && id in groups[g];
      assert id in (groups + [members])[g];
    }
  }

  lemma NewClass(cards: seq<Card>, E: set<(Id, Id)>, groups: seq<seq<Id>>, id: Id, members: seq<Id>)
    requires Classes(cards, E, groups) && IsCard(cards, id) && !Grouped(groups, id)
    requires forall b :: b in members <==> IsCard(cards, b) && Mutual(E, id, b)
    ensures Classes(cards, E, groups + [members]) && id in members
  {
    ReachesSelf(E, id);
    var next := groups + [members];
    forall a, b | a in members && IsCard(cards, b) ensures b in members <==> Mutual(E, a, b) {
      MutualEquivalence(E, id, a, b);
    }
    forall g, a | 0 <= g < |groups| && a in groups[g] ensures a !in members {
      assert id !in groups[g];
      assert !Mutual(E, a, id);
    }
  }

  // ---- Depths and layers ----

  ghost function Positions(n: nat): (s: set<nat>)
    ensures |s| == n && forall g: nat :: g in s <==> g < n
  {
    if n == 0 then {} else Positions(n - 1) + {n - 1}
  }

  // One edge for each pair of different groups that some whole-card prerequisite joins.
  ghost function Condensed(groups: seq<seq<Id>>, ordering: seq<DependencyEdge>): set<(nat, nat)> {
    set e | e in ordering && GroupOf(groups, e.from) != GroupOf(groups, e.to)
      :: (GroupOf(groups, e.from), GroupOf(groups, e.to))
  }

  lemma {:induction false} MemberGroup(cards: seq<Card>, E: set<(Id, Id)>, groups: seq<seq<Id>>, g: nat, a: Id)
    requires Classes(cards, E, groups) && g < |groups| && a in groups[g]
    ensures GroupOf(groups, a) == g
  {
    assert Grouped(groups, a);
  }

  /** Along a path of groups, every card of the first reaches every card of the last. */
  lemma {:induction false} GroupPathReaches(cards: seq<Card>, ordering: seq<DependencyEdge>, groups: seq<seq<Id>>,
                                            p: seq<nat>, a: Id, b: Id)
    requires Classes(cards, OrderingSet(ordering), groups) && IsPath(Condensed(groups, ordering), p) && |p| > 0
    requires forall k | 0 <= k < |p| :: p[k] < |groups|
    requires a in groups[p[0]] && b in groups[p[|p| - 1]]
    ensures Reaches(OrderingSet(ordering), a, b)
    decreases |p|
  {
    var E := OrderingSet(ordering);
    if |p| == 1 {
      assert Mutual(E, a, b);
    } else {
      var q := p[..|p| - 1];
      forall i | 0 <= i < |q| - 1 ensures (q[i], q[i + 1]) in Condensed(groups, ordering) {
        assert (p[i], p[i + 1]) in Condensed(groups, ordering);
      }
      assert (p[|p| - 2], p[|p| - 1]) in Condensed(groups, ordering);
      var e :| e in ordering && GroupOf(groups, e.from) == p[|p| - 2] && GroupOf(groups, e.to) == p[|p| - 1];
      GroupPathReaches(cards, ordering, groups, q, a, e.from);
      assert (e.from, e.to) in E;
      ReachesStep(E, a, e.from, e.to);
      assert Mutual(E, e.to, b);
      ReachesTrans(E, a, e.to, b);
    }
  }

  /** Grouping mutually reachable cards leaves no cycle between groups. */
  lemma {:induction false} CondensationAcyclic(cards: seq<Card>, ordering: seq<DependencyEdge>, groups: seq<seq<Id>>)
    requires IsPartition(cards, OrderingSet(ordering), groups)
    requires forall e | e in ordering :: IsCard(cards, e.from) && IsCard(cards, e.to)
    ensures Over(Condensed(groups, ordering), Positions(|groups|))
    ensures !HasCycle(Condensed(groups, ordering))
  {
    var C := Condensed(groups, ordering);
    var V := Positions(|groups|);
    forall g, h | (g, h) in C ensures g in V && h in V {
      var e :| e in ordering && GroupOf(groups, e.from) == g && GroupOf(groups, e.to) == h;
      var c :| c in cards && c.id == e.from;
      var d :| d in cards && d.id == e.to;
    }
    forall p ensures !IsCycle(C, p) {
      if IsCycle(C, p) {
        forall k | 0 <= k < |p| ensures p[k] < |groups| {
          assert k < |p| - 1 ==> (p[k], p[k + 1]) in C;
          assert k > 0 ==> (p[k - 1], p[k - 1 + 1]) in C;
        }
        assert (p[0], p[1]) in C;
        assert groups[p[0]][0] in groups[p[0]] && groups[p[1]][0] in groups[p[1]];
        CycleMerges(cards, ordering, groups, p);
      }
    }
  }

  /** On a cycle of groups, the first two hold mutually reachable cards. */
  lemma CycleMerges(cards: seq<Card>, ordering: seq<DependencyEdge>, groups: seq<seq<Id>>, p: seq<nat>)
    requires Classes(cards, OrderingSet(ordering), groups)
    requires IsCycle(Condensed(groups, ordering), p) && forall k | 0 <= k < |p| :: p[k] < |groups|
    ensures Mutual(OrderingSet(ordering), groups[p[0]][0], groups[p[1]][0])
  {
    var C := Condensed(groups, ordering);
    assert (p[0], p[1]) in C;
    var q := p[1..];
    forall i | 0 <= i < |q| - 1 ensures (q[i], q[i + 1]) in C {
      assert (p[i + 1], p[i + 1 + 1]) in C;
    }
    var a, b := groups[p[0]][0], groups[p[1]][0];
    assert a in groups[p[0]] && b in groups[p[1]];
    GroupPathReaches(cards, ordering, groups, p[..2], a, b);
    GroupPathReaches(cards, ordering, groups, q, b, a);
  }

  // The depths of all groups, as a labelling of their positions.
  ghost function Labels(depth: seq<nat>): map<nat, nat> {
    map g | g in Positions(|depth|) :: depth[g]
  }

  ghost predicate ProperDepths(count: nat, C: set<(nat, nat)>, depth: seq<nat>) {
    |depth| == count && Over(C, Positions(count)) && Witnessed(C, Labels(depth))
  }

  ghost predicate NoShallower(base: seq<nat>, depth: seq<nat>) {
    |base| == |depth| && forall g | 0 <= g < |base| :: base[g] <= depth[g]
  }

  // Every target group is below its source's depth in `base`.
  ghost predicate Deepened(groups: seq<seq<Id>>, edges: seq<DependencyEdge>, base: seq<nat>, depth: seq<nat>) {
    forall e | e in edges && GroupOf(groups, e.from) != GroupOf(groups, e.to) ::
      GroupOf(groups, e.from) < |base| && GroupOf(groups, e.to) < |depth|
      && base[GroupOf(groups, e.from)] + 1 <= depth[GroupOf(groups, e.to)]
  }

  /** One pass of the relaxation over the depth array. */
  method DepthPass(groups: seq<seq<Id>>, ordering: seq<DependencyEdge>, depth: array<nat>)
    requires ProperDepths(|groups|, Condensed(groups, ordering), depth[..])
    modifies depth
    ensures ProperDepths(|groups|, Condensed(groups, ordering), depth[..])
    ensures NoShallower(old(depth[..]), depth[..]) && Deepened(groups, ordering, old(depth[..]), depth[..])
  {
    ghost var C := Condensed(groups, ordering);
    ghost var base := depth[..];
    for n := 0 to |ordering|
      invariant ProperDepths(|groups|, C, depth[..]) && NoShallower(base, depth[..])
      invariant Deepened(groups, ordering[..n], base, depth[..])
    {
      var edge := ordering[n];
      TakeNext(ordering, n);
      var from, to := GroupOf(groups, edge.from), GroupOf(groups, edge.to);
      if from != to {
        assert (from, to) in C;
        ghost var before := depth[..];
        if depth[from] + 1 > depth[to] {
          DeepenOne(|groups|, C, before, from, to);
          depth[to] := depth[from] + 1;
          assert depth[..] == before[to := before[from] + 1];
        }
        DeepenedStays(groups, ordering[..n], base, before, depth[..]);
      }
    }
    TakeAll(ordering);
  }

  lemma DeepenOne(count: nat, C: set<(nat, nat)>, depth: seq<nat>, from: nat, to: nat)
    requires ProperDepths(count, C, depth) && (from, to) in C
    ensures from < count && to < count && ProperDepths(count, C, depth[to := depth[from] + 1])
  {
    assert from in Positions(count) && to in Positions(count);
    RelaxWitnessed(C, Labels(depth), from, to);
    assert Labels(depth[to := depth[from] + 1]) == Labels(depth)[to := Labels(depth)[from] + 1];
  }

  lemma DeepenedStays(groups: seq<seq<Id>>, edges: seq<DependencyEdge>, base: seq<nat>, depth: seq<nat>,
        deeper: seq<nat>)
    requires Deepened(groups, edges, base, depth) && NoShallower(depth, deeper)
    ensures Deepened(groups, edges, base, deeper)
  {
  }

  lemma DepthPassCovers(groups: seq<seq<Id>>, ordering: seq<DependencyEdge>, base: seq<nat>, depth: seq<nat>, pass: nat)
    requires ProperDepths(|groups|, Condensed(groups, ordering), base)
    requires Covers(Condensed(groups, ordering), Labels(base), pass)
    requires NoShallower(base, depth) && Deepened(groups, ordering, base, depth)
    ensures Covers(Condensed(groups, ordering), Labels(depth), pass + 1)
  {
    var C := Condensed(groups, ordering);
    forall u, v | (u, v) in C
      ensures u in Labels(base) && v in Labels(depth) && Labels(base)[u] + 1 <= Labels(depth)[v]
    {
      var e :| e in ordering && GroupOf(groups, e.from) == u && GroupOf(groups, e.to) == v;
    }
    assert Labels(depth).Keys == Positions(|groups|);
    PassCovers(C, Labels(base), Labels(depth), pass);
  }

  /** After as many passes as there are groups, each depth is the longest chain of prerequisites that ends there. */
  method GroupDepths(cards: seq<Card>, groups: seq<seq<Id>>, ordering: seq<DependencyEdge>) returns (depths: seq<nat>)
    requires IsPartition(cards, OrderingSet(ordering), groups)
    requires forall e | e in ordering :: IsCard(cards, e.from) && IsCard(cards, e.to)
    ensures |depths| == |groups|
    ensures forall g: nat | g < |groups| :: LongestChain(Condensed(groups, ordering), g, depths[g])
  {
    ghost var C := Condensed(groups, ordering);
    CondensationAcyclic(cards, ordering, groups);
    var depth := new nat[|groups|](_ => 0);
    ZeroWitnessed(C, Labels(depth[..]));
    for pass := 0 to |groups|
      invariant ProperDepths(|groups|, C, depth[..]) && Covers(C, Labels(depth[..]), pass)
    {
      ghost var base := depth[..];
      DepthPass(groups, ordering, depth);
      DepthPassCovers(groups, ordering, base, depth[..], pass);
    }
    depths := depth[..];
    DepthsAreLongest(cards, groups, ordering, depths);
  }

  lemma DepthsAreLongest(cards: seq<Card>, groups: seq<seq<Id>>, ordering: seq<DependencyEdge>, depths: seq<nat>)
    requires ProperDepths(|groups|, Condensed(groups, ordering), depths) && !HasCycle(Condensed(groups, ordering))
    requires Covers(Condensed(groups, ordering), Labels(depths), |groups|)
    ensures forall g: nat | g < |groups| :: LongestChain(Condensed(groups, ordering), g, depths[g])
  {
    assert Labels(depths).Keys == Positions(|groups|);
    CoversIsLongest(Condensed(groups, ordering), Labels(depths), |groups|);
    forall g: nat | g < |groups| ensures LongestChain(Condensed(groups, ordering), g, depths[g]) {
      assert g in Labels(depths) && Labels(depths)[g] == depths[g];
    }
  }

  // The depth of each group is its longest chain of whole-card prerequisites.
  ghost predicate DepthsFaithful(groups: seq<seq<Id>>, ordering: seq<DependencyEdge>, depths: seq<nat>) {
    |depths| == |groups|
    && forall g: nat | g < |groups| :: LongestChain(Condensed(groups, ordering), g, depths[g])
  }

  /** Ordering edges between different groups strictly increase depth, and every depth is below the number of groups. */
  lemma {:induction false} DepthsClimb(cards: seq<Card>, groups: seq<seq<Id>>, ordering: seq<DependencyEdge>,
        depths: seq<nat>)
    requires IsPartition(cards, OrderingSet(ordering), groups)
    requires forall e | e in ordering :: IsCard(cards, e.from) && IsCard(cards, e.to)
    requires DepthsFaithful(groups, ordering, depths)
    ensures forall e | e in ordering && GroupOf(groups, e.from) != GroupOf(groups, e.to) ::
      GroupOf(groups, e.from) < |groups| && GroupOf(groups, e.to) < |groups|
      && depths[GroupOf(groups, e.from)] < depths[GroupOf(groups, e.to)]
    ensures forall g: nat | g < |groups| :: depths[g] < |groups|
  {
    var C := Condensed(groups, ordering);
    CondensationAcyclic(cards, ordering, groups);
    assert Labels(depths).Keys == Positions(|groups|);
    forall e | e in ordering && GroupOf(groups, e.from) != GroupOf(groups, e.to)
      ensures GroupOf(groups, e.from) < |groups| && GroupOf(groups, e.to) < |groups|
           && depths[GroupOf(groups, e.from)] < depths[GroupOf(groups, e.to)]
    {
      var u, v := GroupOf(groups, e.from), GroupOf(groups, e.to);
      assert (u, v) in C;
      assert u in Positions(|groups|) && v in Positions(|groups|);
      LongestClimbs(C, Labels(depths), u, v);
    }
    forall g: nat | g < |groups| ensures depths[g] < |groups| {
      LongestBelowSize(C, Labels(depths), g);
    }
  }

  // The level at which a card is shown.
  function CardLevel(groups: seq<seq<Id>>, depths: seq<nat>, c: Card): nat {
    var g := GroupOf(groups, c.id);
    if g < |depths| then depths[g] else 0
  }

  lemma CardLevelsHaveNoGaps(cards: seq<Card>, sorted: seq<Card>, groups: seq<seq<Id>>, ordering: seq<DependencyEdge>,
                             depths: seq<nat>, level: Card -> nat)
    requires IsPartition(cards, OrderingSet(ordering), groups)
    requires forall e | e in ordering :: IsCard(cards, e.from) && IsCard(cards, e.to)
    requires DepthsFaithful(groups, ordering, depths)
    requires (forall c :: c in sorted <==> c in cards) && forall c: Card :: level(c) == CardLevel(groups, depths, c)
    ensures NoGaps(sorted, level)
  {
    forall d: nat, e: nat | d <= e && Occupied(sorted, level, e) ensures Occupied(sorted, level, d) {
      var c :| c in sorted && level(c) == e;
      assert Grouped(groups, c.id);
      var k := CardAtDepth(cards, groups, ordering, depths, GroupOf(groups, c.id), d);
      assert k in sorted && level(k) == d;
    }
  }

  lemma GroupAtDepth(groups: seq<seq<Id>>, ordering: seq<DependencyEdge>, depths: seq<nat>, g: nat,
        d: nat) returns (u: nat)
    requires Over(Condensed(groups, ordering), Positions(|groups|))
    requires DepthsFaithful(groups, ordering, depths) && g < |groups| && d <= depths[g]
    ensures u < |groups| && depths[u] == d
  {
    assert Labels(depths).Keys == Positions(|groups|);
    LongestContiguous(Condensed(groups, ordering), Labels(depths), g, d);
    u :| u in Labels(depths) && Labels(depths)[u] == d;
  }

  /** Below every group there are cards at each smaller depth. */
  lemma CardAtDepth(cards: seq<Card>, groups: seq<seq<Id>>, ordering: seq<DependencyEdge>, depths: seq<nat>, g: nat,
        d: nat)
    returns (k: Card)
    requires IsPartition(cards, OrderingSet(ordering), groups)
    requires forall e | e in ordering :: IsCard(cards, e.from) && IsCard(cards, e.to)
    requires DepthsFaithful(groups, ordering, depths) && g < |groups| && d <= depths[g]
    ensures k in cards && CardLevel(groups, depths, k) == d
  {
    CondensationAcyclic(cards, ordering, groups);
    var u := GroupAtDepth(groups, ordering, depths, g, d);
    assert groups[u][0] in groups[u];
    MemberGroup(cards, OrderingSet(ordering), groups, u, groups[u][0]);
    assert IsCard(cards, groups[u][0]);
    k :| k in cards && k.id == groups[u][0];
  }

  // Layer `i` holds, in display order, exactly the cards of depth `i`, and no layer is empty.
  ghost predicate LayersFaithful(sorted: seq<Card>, groups: seq<seq<Id>>, depths: seq<nat>,
                                 layers: seq<(nat, seq<Card>)>) {
    && (forall i | 0 <= i < |layers| :: layers[i].0 == i && layers[i].1 != []
         && layers[i].1 == AtLevel(c => CardLevel(groups, depths, c), i, sorted))
    && (forall c | c in sorted :: CardLevel(groups, depths, c) < |layers|)
  }

  method LayerCards(cards: seq<Card>, cardLe: (Card, Card) -> bool, groups: seq<seq<Id>>,
                    ghost ordering: seq<DependencyEdge>, depths: seq<nat>)
    returns (layers: seq<(nat, seq<Card>)>)
    requires IsPartition(cards, OrderingSet(ordering), groups)
    requires forall e | e in ordering :: IsCard(cards, e.from) && IsCard(cards, e.to)
    requires DepthsFaithful(groups, ordering, depths)
    ensures LayersFaithful(StableSort(cardLe, cards), groups, depths, layers)
  {
    var sorted := StableSort(cardLe, cards);
    SortKeepsMembers(cardLe, cards);
    var level := c => CardLevel(groups, depths, c);
    layers := GroupByLevel(sorted, level);
    CardLevelsHaveNoGaps(cards, sorted, groups, ordering, depths, level);
    RowIndexIsLevel(sorted, level, layers, |layers|);
    LayeringIsFaithful(sorted, groups, depths, level, layers);
  }

  lemma LayeringIsFaithful(sorted: seq<Card>, groups: seq<seq<Id>>, depths: seq<nat>, level: Card -> nat,
                           layers: seq<(nat, seq<Card>)>)
    requires level == (c => CardLevel(groups, depths, c)) && IsLayering(sorted, level, layers)
    requires forall i | 0 <= i < |layers| :: layers[i].0 == i
    ensures LayersFaithful(sorted, groups, depths, layers)
  {
    forall c | c in sorted ensures CardLevel(groups, depths, c) < |layers| {
      var i :| 0 <= i < |layers| && layers[i].0 == level(c);
    }
  }

  // ---- The whole graph ----

  datatype Graph = Graph(layers: seq<(nat, seq<Card>)>, edges: seq<DependencyEdge>, external: seq<ExternalDependency>,
                         crossed: bool)

  function Ordering(edges: seq<DependencyEdge>): seq<DependencyEdge> {
    Filter((e: DependencyEdge) => !e.partial, edges)
  }

  lemma OrderingJoinsCards(cards: seq<Card>, tasks: seq<Task>, edges: seq<DependencyEdge>)
    requires EdgesFaithful(cards, tasks, edges)
    ensures forall e | e in Ordering(edges) :: IsCard(cards, e.from) && IsCard(cards, e.to)
  {
    FilterMembers((e: DependencyEdge) => !e.partial, edges);
    forall e | e in Ordering(edges) ensures IsCard(cards, e.from) && IsCard(cards, e.to) {
      assert Between(e, e.from, e.to);
      assert HasEdge(edges, e.from, e.to);
    }
  }

  ghost predicate HasUniqueOwner(cards: seq<Card>, tasks: seq<Task>, id: Id) {
    exists card :: UniqueOwner(cards, tasks, id, card)
  }

  // External prerequisites are exactly those of owned tasks that no single card owns.
  ghost predicate ExternalFaithful(cards: seq<Card>, tasks: seq<Task>, external: seq<ExternalDependency>) {
    forall x :: x in external <==>
      exists t, d :: t in tasks && d in t.blockedBy && HasUniqueOwner(cards, tasks, t.id)
                     && !HasUniqueOwner(cards, tasks, d.id) && x == ExternalDependency(t.Key(), d.Key())
  }

  lemma {:induction false} ExternalIsFaithful(cards: seq<Card>, tasks: seq<Task>, owner: Id -> Option<Id>)
    requires Owners(cards, tasks, owner)
    ensures ExternalFaithful(cards, tasks, ExternalOf(owner, tasks))
  {
    forall id ensures owner(id).Some? <==> HasUniqueOwner(cards, tasks, id) {
      if owner(id).Some? {
        assert owner(id) == Some(owner(id).value);
      }
    }
    forall x {
      ExternalMeans(owner, tasks, x);
    }
  }

  method Project(cards: seq<Card>, tasks: seq<Task>)
    returns (edges: seq<DependencyEdge>, external: seq<ExternalDependency>, ghost owner: Id -> Option<Id>)
    requires DistinctTasks(tasks) && DistinctCards(cards)
    ensures EdgesFaithful(cards, tasks, edges) && ExternalFaithful(cards, tasks, external)
    ensures Owners(cards, tasks, owner)
    ensures InOrder(edges, ContributionList(owner, tasks)) && external == ExternalOf(owner, tasks)
  {
    var descendants := CollectDescendants(cards, tasks);
    var unique := id => Owner(cards, descendants, id);
    forall id, card ensures unique(id) == Some(card) <==> UniqueOwner(cards, tasks, id, card) {
      OwnerIsUnique(cards, tasks, descendants, id);
    }
    edges, external := ProjectEdges(unique, tasks);
    owner := unique;
    ProjectionIsFaithful(cards, tasks, owner, edges);
    ExternalIsFaithful(cards, tasks, owner);
  }

  // Two cards point at each other, or some group has more than one card.
  predicate Crossed(edges: seq<DependencyEdge>, groups: seq<seq<Id>>) {
    (exists e :: e in edges && EdgeIndex(edges, e.to, e.from) < |edges|)
    || exists g :: g in groups && |g| > 1
  }

  /** The card graph: faithful edges and external prerequisites in the order of the tasks, a partition into classes of
      mutual reachability by whole edges, longest-chain depths, and one non-empty layer for each depth from 0. */
  method TaskDependencyGraph(cards: seq<Card>, tasks: seq<Task>, cardLe: (Card, Card) -> bool)
    returns (graph: Graph, ghost owner: Id -> Option<Id>, ghost groups: seq<seq<Id>>, ghost depths: seq<nat>)
    requires DistinctTasks(tasks) && DistinctCards(cards)
    ensures EdgesFaithful(cards, tasks, graph.edges) && ExternalFaithful(cards, tasks, graph.external)
    ensures Owners(cards, tasks, owner)
    ensures InOrder(graph.edges, ContributionList(owner, tasks)) && graph.external == ExternalOf(owner, tasks)
    ensures IsPartition(cards, OrderingSet(Ordering(graph.edges)), groups)
    ensures DepthsFaithful(groups, Ordering(graph.edges), depths)
    ensures LayersFaithful(StableSort(cardLe, cards), groups, depths, graph.layers)
    ensures graph.crossed <==>
      (exists e :: e in graph.edges && HasEdge(graph.edges, e.to, e.from)) || exists g :: g in groups && |g| > 1
  {
    var edges, external, uniqueOwner := Project(cards, tasks);
    owner := uniqueOwner;
    OrderingJoinsCards(cards, tasks, edges);
    var ordering := Ordering(edges);
    var cardGroups := GroupCards(cards, ordering);
    var cardDepths := GroupDepths(cards, cardGroups, ordering);
    var layers := LayerCards(cards, cardLe, cardGroups, ordering, cardDepths);
    graph := Graph(layers, edges, external, Crossed(edges, cardGroups));
    groups, depths := cardGroups, cardDepths;
    CrossedMeans(edges, cardGroups);
  }

  lemma CrossedMeans(edges: seq<DependencyEdge>, groups: seq<seq<Id>>)
    ensures Crossed(edges, groups) <==>
      (exists e :: e in edges && HasEdge(edges, e.to, e.from)) || exists g :: g in groups && |g| > 1
  {
    forall e | e in edges ensures EdgeIndex(edges, e.to, e.from) < |edges| <==> HasEdge(edges, e.to, e.from) {
      var k := EdgeIndex(edges, e.to, e.from);
      if k < |edges| {
        assert edges[k] in edges && Between(edges[k], e.to, e.from);
      }
    }
  }
}
