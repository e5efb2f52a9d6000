/** Delivery progress of a task over everything it contains, and the roadmap that lists every task below a parent.
    Containment may be shared or circular and may mention tasks that are not loaded. */
module TaskProgress {
  import opened Common
  import opened Graphs
  import opened Sorting

  type Id = string

  datatype Status = Done | InReview | Canceled | Open
  datatype Summary = Summary(id: Id, status: Status)
  datatype Task = Task(id: Id, parent: Option<Id>, subIssues: seq<Summary>, status: Status, labels: seq<string>)

  const ACCEPTANCE := "progress-stage:acceptance"

  ghost predicate DistinctIds(tasks: seq<Task>) {
    forall i, j | 0 <= i < j < |tasks| :: tasks[i].id != tasks[j].id
  }

  // ---- The merged containment relation ----

  // `a` is a loaded task that lists `b` as a sub-issue, or that `b` names as its parent.
  ghost predicate Contains(tasks: seq<Task>, a: Id, b: Id) {
    exists t :: t in tasks && t.id == a && (Lists(t, b) || exists c :: c in tasks && c.id == b && c.parent == Some(a))
  }

  predicate Lists(t: Task, b: Id) {
    exists s :: s in t.subIssues && s.id == b
  }

  // The children of every loaded task, each once, in the order in which they were added.
  ghost predicate ChildrenOf(tasks: seq<Task>, children: map<Id, seq<Id>>) {
    && (forall id :: id in children <==> exists t :: t in tasks && t.id == id)
    && (forall id | id in children ::
      Distinct(children[id]) && forall b :: b in children[id] <==> Contains(tasks, id, b))
  }

  function AddOnce(s: seq<Id>, x: Id): (r: seq<Id>)
    ensures forall y :: y in r <==> y in s || y == x
  {
    if x in s then s else s + [x]
  }

  function SubIssueIds(summaries: seq<Summary>): seq<Id> {
    if summaries == [] then [] else AddOnce(SubIssueIds(summaries[..|summaries| - 1]), summaries[|summaries| - 1].id)
  }

  lemma {:induction false} SubIssueIdsAre(summaries: seq<Summary>)
    ensures Distinct(SubIssueIds(summaries))
    ensures forall b :: b in SubIssueIds(summaries) <==> exists s :: s in summaries && s.id == b
  {
    if summaries != [] {
      var last := summaries[|summaries| - 1];
      SubIssueIdsAre(summaries[..|summaries| - 1]);
      assert summaries == summaries[..|summaries| - 1] + [last];
    }
  }

  // While the parent links of the first `n` tasks have been added.
  ghost predicate Linked(tasks: seq<Task>, n: nat, children: map<Id, seq<Id>>)
    requires n <= |tasks|
  {
    && (forall id :: id in children <==> exists t :: t in tasks && t.id == id)
    && (forall t | t in tasks && t.id in children :: Distinct(children[t.id]) && forall b :: b in children[t.id] <==>
          Lists(t, b) || exists c :: c in tasks[..n] && c.id == b && c.parent == Some(t.id))
  }

  method CollectSubIssues(tasks: seq<Task>) returns (children: map<Id, seq<Id>>)
    requires DistinctIds(tasks)
    ensures Linked(tasks, 0, children)
  {
    children := map[];
    for n := 0 to |tasks|
      invariant forall id :: id in children <==> exists t :: t in tasks[..n] && t.id == id
      invariant forall i | 0 <= i < n ::
        tasks[i].id in children && children[tasks[i].id] == SubIssueIds(tasks[i].subIssues)
    {
      TakeNext(tasks, n);
      children := children[tasks[n].id := SubIssueIds(tasks[n].subIssues)];
    }
    TakeAll(tasks);
    forall t | t in tasks && t.id in children
      ensures Distinct(children[t.id]) && forall b :: b in children[t.id] <==> Lists(t, b)
    {
      SubIssueIdsAre(t.subIssues);
    }
  }

  method CollectChildren(tasks: seq<Task>) returns (children: map<Id, seq<Id>>)
    requires DistinctIds(tasks)
    ensures ChildrenOf(tasks, children)
  {
    children := CollectSubIssues(tasks);
    for n := 0 to |tasks|
      invariant Linked(tasks, n, children)
    {
      var task := tasks[n];
      if task.parent.Some? && task.parent.value in children {
        LinkOne(tasks, n, children);
        children := children[task.parent.value := AddOnce(children[task.parent.value], task.id)];
      } else {
        LinkNone(tasks, n, children);
      }
    }
    AllLinked(tasks, children);
  }

  lemma LinkNone(tasks: seq<Task>, n: nat, children: map<Id, seq<Id>>)
    requires n < |tasks| && Linked(tasks, n, children)
    requires tasks[n].parent.Some? ==> tasks[n].parent.value !in children
    ensures Linked(tasks, n + 1, children)
  {
    TakeNext(tasks, n);
  }

  lemma LinkOne(tasks: seq<Task>, n: nat, children: map<Id, seq<Id>>)
    requires DistinctIds(tasks) && n < |tasks| && Linked(tasks, n, children)
    requires tasks[n].parent.Some? && tasks[n].parent.value in children
    ensures Linked(tasks, n + 1,
                   children[tasks[n].parent.value := AddOnce(children[tasks[n].parent.value], tasks[n].id)])
  {
    TakeNext(tasks, n);
  }

  lemma AllLinked(tasks: seq<Task>, children: map<Id, seq<Id>>)
    requires DistinctIds(tasks) && Linked(tasks, |tasks|, children)
    ensures ChildrenOf(tasks, children)
  {
    forall id, b | id in children ensures Distinct(children[id]) && (b in children[id] <==> Contains(tasks, id, b)) {
      OneLinked(tasks, children, id, b);
    }
  }

  // One task and one id that may be its child.
  lemma OneLinked(tasks: seq<Task>, children: map<Id, seq<Id>>, id: Id, b: Id)
    requires DistinctIds(tasks) && Linked(tasks, |tasks|, children) && id in children
    ensures Distinct(children[id]) && (b in children[id] <==> Contains(tasks, id, b))
  {
    TakeAll(tasks);
    var t :| t in tasks && t.id == id;
    assert forall u | u in tasks && u.id == id :: u == t;
  }

  /** The last status that a parent recorded for each sub-issue. */
  function RecordedStatus(tasks: seq<Task>): map<Id, Status> {
    if tasks == [] then map[]
    else RecordedStatus(tasks[..|tasks| - 1]) + SummaryStatus(tasks[|tasks| - 1].subIssues)
  }

  function SummaryStatus(summaries: seq<Summary>): map<Id, Status> {
    if summaries == [] then map[]
    else
      var last := summaries[|summaries| - 1];
      SummaryStatus(summaries[..|summaries| - 1])[last.id := last.status]
  }

  // ---- progressFor ----

  // The loaded tasks as the traversal sees them.
  datatype Model = Model(byId: map<Id, Task>, children: map<Id, seq<Id>>, recorded: map<Id, Status>) {
    predicate Leaf(id: Id) {
      id in byId && id in children && children[id] == [] && byId[id].status != Canceled
    }

    predicate Missing(id: Id) {
      id !in byId && !(id in recorded && recorded[id] == Canceled)
    }

    ghost predicate Valid() {
      byId.Keys == children.Keys
    }

    ghost function Edges(): set<(Id, Id)> {
      set a, b | a in children && b in children[a] :: (a, b)
    }
  }

  class ProgressWalk {
    const model: Model
    var visited: set<Id>
    var leaves: map<Id, Task>
    var incomplete: bool

    // The leaves and the completeness of what has been visited.
    ghost predicate Valid()
      reads this
    {
      && model.Valid()
      && (forall id :: id in leaves <==> id in visited && model.Leaf(id))
      && (forall id | id in leaves :: leaves[id] == model.byId[id])
      && (incomplete <==> exists id :: id in visited && model.Missing(id))
    }

    constructor (model: Model)
      requires model.Valid()
      ensures Valid() && visited == {} && this.model == model
    {
      this.model := model;
      visited, leaves, incomplete := {}, map[], false;
    }

    /** Visits what `id` reaches and has not been visited: afterwards no edge leaves what has been added. */
    method Visit(id: Id, ghost universe: set<Id>)
      requires Valid() && id in universe && Nodes(model.Edges()) <= universe
      modifies this
      ensures Valid() && old(visited) <= visited && id in visited
      ensures forall v | v in visited - old(visited) :: Reaches(model.Edges(), id, v)
      ensures forall u, v | u in visited - old(visited) && (u, v) in model.Edges() :: v in visited
      decreases universe - visited
    {
      if id in visited {
        return;
      }
      ghost var before := visited;
      visited := visited + {id};
      ReachesSelf(model.Edges(), id);
      if id !in model.byId {
        SomeMissing(model, before, id);
        if !(id in model.recorded && model.recorded[id] == Canceled) {
          incomplete := true;
        }
        return;
      }
      SomeMissing(model, before, id);
      var children := model.children[id];
      if |children| > 0 {
        for n := 0 to |children|
          invariant Valid() && before + {id} <= visited
          invariant forall v | v in visited - before :: Reaches(model.Edges(), id, v)
          invariant forall u, v | u in visited - before - {id} && (u, v) in model.Edges() :: v in visited
          invariant forall i | 0 <= i < n :: children[i] in visited
        {
          ghost var here := visited;
          assert (id, children[n]) in model.Edges();
          ReachNode(model.Edges(), id, children[n]);
          Visit(children[n], universe);
          ThroughChild(model.Edges(), id, children[n], visited - here);
        }
      } else if model.byId[id].status != Canceled {
        leaves := leaves[id := model.byId[id]];
      }
    }
  }

  lemma SomeMissing(model: Model, visited: set<Id>, id: Id)
    ensures (exists x :: x in visited + {id} && model.Missing(x))
      <==> model.Missing(id) || exists x :: x in visited && model.Missing(x)
  {
    if x :| x in visited && model.Missing(x) {
      assert x in visited + {id};
    }
    if model.Missing(id) {
      assert id in visited + {id};
    }
  }

  lemma ReachNode(E: set<(Id, Id)>, a: Id, b: Id)
    requires (a, b) in E
    ensures b in Nodes(E)
  {
    assert (a, b).1 == b;
  }

  lemma ThroughChild(E: set<(Id, Id)>, a: Id, b: Id, found: set<Id>)
    requires (a, b) in E && forall v | v in found :: Reaches(E, b, v)
    ensures forall v | v in found :: Reaches(E, a, v)
  {
    ReachesSelf(E, a);
    ReachesStep(E, a, a, b);
    forall v | v in found ensures Reaches(E, a, v) {
      ReachesTrans(E, a, b, v);
    }
  }

  datatype Reason = Unplanned | Incomplete | WasCanceled
  datatype Progress = Progress(implemented: nat, implementationTotal: nat, completed: nat, total: nat,
                               percent: Option<int>, reason: Option<Reason>)

  /** JavaScript's `Math.round`: halves round up. */
  function Round(x: real): int {
    (x + 0.5).Floor
  }

  /** The double that `completed / total * 100` comes to is that close to the exact value. */
  ghost predicate Near(x: real, completed: nat, total: nat) {
    -1.0 < 2.0 * (x * total as real - 100.0 * completed as real) < 1.0
  }

  // A way to compute such doubles.
  ghost predicate Accurate(quotient: (nat, nat) -> real) {
    forall completed: nat, total: nat | completed < total :: Near(quotient(completed, total), completed, total)
  }

  lemma RoundBounds(x: real)
    ensures (2 * Round(x) - 1) as real <= 2.0 * x < (2 * Round(x) + 1) as real
  {
    var p := Round(x);
    assert p as real <= x + 0.5 < (p + 1) as real;
    assert (2 * p - 1) as real == 2.0 * p as real - 1.0;
    assert (2 * p + 1) as real == 2.0 * (p + 1) as real - 1.0;
  }

  lemma RoundedWithin(x: real, completed: nat, total: nat)
    requires total > 0 && Near(x, completed, total)
    ensures (2 * Round(x) - 1) * total <= 200 * completed <= (2 * Round(x) + 1) * total
  {
    RoundBounds(x);
    NearDoubled(x, completed, total);
    Between(2 * Round(x) - 1, 2.0 * x, 2 * Round(x) + 1, total, 200 * completed);
  }

  // Integers on either side of a real number, times a total that brings it close to n.
  lemma Between(a: int, y: real, c: int, t: nat, n: int)
    requires a as real <= y < c as real && t > 0
    requires n as real - 1.0 < y * t as real < n as real + 1.0
    ensures a * t <= n <= c * t
  {
    Scaled(a as real, y, c as real, t as real);
    AsInts(a, c, t, n);
  }

  lemma NearDoubled(x: real, completed: nat, total: nat)
    requires Near(x, completed, total)
    ensures var n := (200 * completed) as real; n - 1.0 < 2.0 * x * total as real < n + 1.0
  {
    assert 2.0 * x * total as real == 2.0 * (x * total as real);
    assert (200 * completed) as real == 200.0 * completed as real;
  }

  lemma AsInts(a: int, c: int, t: nat, n: int)
    requires a as real * t as real < n as real + 1.0 && n as real - 1.0 < c as real * t as real
    ensures a * t <= n <= c * t
  {
    assert (a * t) as real == a as real * t as real && (c * t) as real == c as real * t as real;
  }

  lemma AtLeast(a: int, b: int, t: nat)
    ensures a >= b ==> a * t >= b * t
  {
  }

  lemma Scaled(a: real, b: real, c: real, t: real)
    requires a <= b < c && t > 0.0
    ensures a * t <= b * t < c * t
  {
  }

  // The ratio in per cent, rounded to the nearest integer, either way at a tie, except that only all is 100.
  ghost predicate IsPercent(p: int, completed: nat, total: nat) {
    && 0 <= p <= 100 && (p == 100 <==> completed == total)
    && (p < 99 ==> (2 * p - 1) * total <= 200 * completed <= (2 * p + 1) * total)
    && (p == 99 ==> 197 * total <= 200 * completed && completed < total)
  }

  function Percent(completed: nat, total: nat, quotient: (nat, nat) -> real): (p: int)
    requires completed <= total && total > 0 && Accurate(quotient)
    ensures IsPercent(p, completed, total)
  {
    if completed == total then 100
    else
      var x := quotient(completed, total);
      RoundedWithin(x, completed, total);
      NotNegative(Round(x), completed, total);
      AtLeast(2 * Round(x) - 1, 197, total);
      if Round(x) < 99 then Round(x) else 99
  }

  lemma NotNegative(p: int, completed: nat, total: nat)
    requires total > 0 && 200 * completed <= (2 * p + 1) * total
    ensures p >= 0
  {
    if p < 0 {
      AtLeast(-1, 2 * p + 1, total);
    }
  }

  /** However the quotient is computed, the percentage is the same unless the ratio lies half way between two
      integers. */
  lemma PercentDiffersAtTies(p: int, q: int, completed: nat, total: nat)
    requires IsPercent(p, completed, total) && IsPercent(q, completed, total) && total > 0 && p < q
    ensures q == p + 1 && 200 * completed == (2 * p + 1) * total
  {
    Squeezed(2 * q - 1, 2 * p + 1, total, 200 * completed);
  }

  lemma Squeezed(a: int, b: int, t: nat, n: nat)
    requires a >= b && t > 0 && a * t <= n <= b * t
    ensures a == b && n == b * t
  {
    AtLeast(a, b, t);
    AtLeast(a, b + 1, t);
    assert (b + 1) * t == b * t + t;
  }

  function LeafSet(model: Model, reached: set<Id>): set<Id> {
    set id | id in reached && model.Leaf(id)
  }

  function DoneSet(model: Model, reached: set<Id>): set<Id> {
    set id | id in LeafSet(model, reached) && model.byId[id].status == Done
  }

  function ImplementationSet(model: Model, reached: set<Id>): set<Id> {
    set id | id in LeafSet(model, reached) && ACCEPTANCE !in model.byId[id].labels
  }

  function ImplementedSet(model: Model, reached: set<Id>): set<Id> {
    set id | id in ImplementationSet(model, reached)
             && (model.byId[id].status == InReview || model.byId[id].status == Done)
  }

  ghost predicate AllLoaded(model: Model, reached: set<Id>) {
    forall id | id in reached :: !model.Missing(id)
  }

  // What is reported for a set of reached ids: each leaf counts once.
  ghost predicate Reports(p: Progress, model: Model, reached: set<Id>) {
    && p.total == |LeafSet(model, reached)| && p.completed == |DoneSet(model, reached)|
    && p.implementationTotal == |ImplementationSet(model, reached)| && p.implemented == |ImplementedSet(model, reached)|
    && p.completed <= p.total && p.implemented <= p.implementationTotal <= p.total
    && (p.percent.Some? <==> AllLoaded(model, reached) && p.total > 0)
    && (p.percent.Some? ==> IsPercent(p.percent.value, p.completed, p.total))
    && p.reason == (
      if !AllLoaded(model, reached) then Some(Incomplete) else if p.total == 0 then Some(Unplanned) else None)
  }

  // The ids that the traversal of `ids` reaches.
  ghost predicate ReachedFrom(model: Model, ids: seq<Id>, reached: set<Id>) {
    forall v :: v in reached <==> exists r :: r in ids && Reaches(model.Edges(), r, v)
  }

  // After the first roots have been visited.
  ghost predicate VisitedFrom(E: set<(Id, Id)>, ids: seq<Id>, visited: set<Id>) {
    && (forall v | v in visited :: FromSome(E, ids, v))
    && Closed(E, visited)
    && (forall r | r in ids :: r in visited)
  }

  ghost predicate FromSome(E: set<(Id, Id)>, ids: seq<Id>, v: Id) {
    exists r :: r in ids && Reaches(E, r, v)
  }

  lemma OneMoreRoot(E: set<(Id, Id)>, ids: seq<Id>, root: Id, before: set<Id>, after: set<Id>)
    requires VisitedFrom(E, ids, before) && before <= after && root in after
    requires forall v | v in after - before :: Reaches(E, root, v)
    requires forall u, v | u in after - before && (u, v) in E :: v in after
    ensures VisitedFrom(E, ids + [root], after)
  {
    forall v | v in after ensures FromSome(E, ids + [root], v) {
      if v in before {
        MoreIds(E, ids, root, v);
      } else {
        assert root in ids + [root];
      }
    }
  }

  lemma MoreIds(E: set<(Id, Id)>, ids: seq<Id>, root: Id, v: Id)
    requires FromSome(E, ids, v)
    ensures FromSome(E, ids + [root], v)
  {
    var r :| r in ids && Reaches(E, r, v);
    assert r in ids + [root];
  }

  /** `ids.forEach(visit)`. */
  method VisitAll(walk: ProgressWalk, ids: seq<Id>)
    requires walk.Valid() && walk.visited == {}
    modifies walk
    ensures walk.Valid() && ReachedFrom(walk.model, ids, walk.visited)
  {
    ghost var E := walk.model.Edges();
    ghost var universe := Nodes(E) + set id | id in ids;
    VisitedNone(E);
    for n := 0 to |ids|
      invariant walk.Valid() && VisitedFrom(E, ids[..n], walk.visited)
    {
      ghost var before := walk.visited;
      assert ids[n] in universe;
      walk.Visit(ids[n], universe);
      NextRoot(E, ids, n, before, walk.visited);
    }
    TakeAll(ids);
    VisitedIsReached(walk.model, ids, walk.visited);
  }

  lemma VisitedNone(E: set<(Id, Id)>)
    ensures VisitedFrom(E, [], {})
  {
  }

  lemma NextRoot(E: set<(Id, Id)>, ids: seq<Id>, n: nat, before: set<Id>, after: set<Id>)
    requires n < |ids| && VisitedFrom(E, ids[..n], before) && before <= after && ids[n] in after
    requires forall v | v in after - before :: Reaches(E, ids[n], v)
    requires forall u, v | u in after - before && (u, v) in E :: v in after
    ensures VisitedFrom(E, ids[..n + 1], after)
  {
    OneMoreRoot(E, ids[..n], ids[n], before, after);
    TakeNext(ids, n);
  }

  method ProgressFor(model: Model, ids: seq<Id>, quotient: (nat, nat) -> real)
    returns (p: Progress, ghost reached: set<Id>)
    requires model.Valid() && Accurate(quotient)
    ensures ReachedFrom(model, ids, reached) && Reports(p, model, reached)
  {
    var walk := new ProgressWalk(model);
    VisitAll(walk, ids);
    reached := walk.visited;
    p := Summarize(walk.leaves, walk.incomplete, quotient);
    SummaryReports(model, reached, walk.leaves, walk.incomplete, quotient);
  }

  lemma VisitedIsReached(model: Model, ids: seq<Id>, reached: set<Id>)
    requires VisitedFrom(model.Edges(), ids, reached)
    ensures ReachedFrom(model, ids, reached)
  {
    forall v ensures v in reached <==> FromSome(model.Edges(), ids, v) {
      if r :| r in ids && Reaches(model.Edges(), r, v) {
        var p :| PathFromTo(model.Edges(), p, r, v);
        ClosedHoldsPath(model.Edges(), reached, p);
      }
    }
  }

  function Summarize(leaves: map<Id, Task>, incomplete: bool, quotient: (nat, nat) -> real): Progress
    requires Accurate(quotient)
  {
    var total := |leaves|;
    var completed := |set id | id in leaves && leaves[id].status == Done|;
    var implementation := set id | id in leaves && ACCEPTANCE !in leaves[id].labels;
    var implemented := |set id | id in implementation && (leaves[id].status == InReview || leaves[id].status == Done)|;
    assert completed <= total by {
      SubsetSize((set id | id in leaves && leaves[id].status == Done), leaves.Keys);
    }
    Progress(implemented, |implementation|, completed, total,
             if incomplete || total == 0 then None else Some(Percent(completed, total, quotient)),
             if incomplete then Some(Incomplete) else if total == 0 then Some(Unplanned) else None)
  }

  lemma SummarySets(model: Model, reached: set<Id>, leaves: map<Id, Task>)
    requires forall id :: id in leaves <==> id in reached && model.Leaf(id)
    requires forall id | id in leaves :: id in model.byId && leaves[id] == model.byId[id]
    ensures leaves.Keys == LeafSet(model, reached)
    ensures (set id | id in leaves && leaves[id].status == Done) == DoneSet(model, reached)
    ensures var implementation := set id | id in leaves && ACCEPTANCE !in leaves[id].labels;
      && implementation == ImplementationSet(model, reached)
      && (set id | id in implementation && (leaves[id].status == InReview || leaves[id].status == Done))
        == ImplementedSet(model, reached)
  {
  }

  lemma SummaryReports(model: Model, reached: set<Id>, leaves: map<Id, Task>, incomplete: bool,
                       quotient: (nat, nat) -> real)
    requires Accurate(quotient)
    requires forall id :: id in leaves <==> id in reached && model.Leaf(id)
    requires forall id | id in leaves :: id in model.byId && leaves[id] == model.byId[id]
    requires incomplete <==> exists id :: id in reached && model.Missing(id)
    ensures Reports(Summarize(leaves, incomplete, quotient), model, reached)
  {
    SummarySets(model, reached, leaves);
    SubsetSize(DoneSet(model, reached), LeafSet(model, reached));
    SubsetSize(ImplementationSet(model, reached), LeafSet(model, reached));
    SubsetSize(ImplementedSet(model, reached), ImplementationSet(model, reached));
  }

  /** 100 per cent is reported exactly when there is a leaf, every leaf is done, and nothing reachable is missing. */
  lemma HundredMeansDone(p: Progress, model: Model, reached: set<Id>)
    requires Reports(p, model, reached)
    ensures p.percent == Some(100) <==>
      LeafSet(model, reached) != {} && (forall id | id in LeafSet(model, reached) :: model.byId[id].status == Done)
      && AllLoaded(model, reached)
  {
    SubsetSize(DoneSet(model, reached), LeafSet(model, reached));
    if forall id | id in LeafSet(model, reached) :: model.byId[id].status == Done {
      assert DoneSet(model, reached) == LeafSet(model, reached);
    }
  }

  // ---- forTask ----

  const NOTHING := Progress(0, 0, 0, 0, None, None)

  /** A canceled task, and a task without children that is not done, report nothing; other tasks report what they
      reach. */
  method ForTask(model: Model, id: Id, quotient: (nat, nat) -> real) returns (p: Progress, ghost reached: set<Id>)
    requires model.Valid() && Accurate(quotient)
    ensures ReachedFrom(model, [id], reached)
    ensures p.completed <= p.total && p.implemented <= p.implementationTotal <= p.total
    ensures id !in model.byId ==> p == NOTHING.(reason := Some(Incomplete))
    ensures id in model.byId && model.byId[id].status == Canceled ==> p == NOTHING.(reason := Some(WasCanceled))
    ensures id in model.byId && model.byId[id].status != Canceled && model.byId[id].status != Done ==>
      model.children[id] == [] ==> p == NOTHING.(reason := Some(Unplanned))
    ensures p.percent == Some(100) <==>
      id in model.byId && model.byId[id].status != Canceled && LeafSet(model, reached) != {}
      && (forall x | x in LeafSet(model, reached) :: model.byId[x].status == Done) && AllLoaded(model, reached)
    ensures id in model.byId && model.byId[id].status != Canceled ==>
      model.byId[id].status == Done || model.children[id] != [] ==> Reports(p, model, reached)
  {
    var progress: Progress;
    progress, reached := ProgressFor(model, [id], quotient);
    HundredMeansDone(progress, model, reached);
    assert id in reached by {
      ReachesSelf(model.Edges(), id);
      assert id in [id];
    }
    if id !in model.byId {
      return NOTHING.(reason := Some(Incomplete)), reached;
    }
    if model.byId[id].status == Canceled {
      return NOTHING.(reason := Some(WasCanceled)), reached;
    }
    if |model.children[id]| == 0 && model.byId[id].status != Done {
      assert id in LeafSet(model, reached);
      return NOTHING.(reason := Some(Unplanned)), reached;
    }
    p := progress;
  }

  // ---- The roadmap ----

  ghost predicate HasTask(tasks: seq<Task>, id: Id) {
    exists t :: t in tasks && t.id == id
  }

  datatype Entry = Entry(id: Id, depth: nat)

  // `j` is the nearest earlier entry that is shallower than `k`, one level up, and contains it.
  ghost predicate IsParent(E: set<(Id, Id)>, roadmap: seq<Entry>, j: int, k: int) {
    && 0 <= j < k < |roadmap|
    && roadmap[j].depth + 1 == roadmap[k].depth && (roadmap[j].id, roadmap[k].id) in E
    && forall i | j < i < k :: roadmap[i].depth >= roadmap[k].depth
  }

  ghost predicate Nested(E: set<(Id, Id)>, roadmap: seq<Entry>) {
    forall k | 0 <= k < |roadmap| && roadmap[k].depth > 0 :: exists j :: IsParent(E, roadmap, j, k)
  }

  ghost predicate ListsOnce(roadmap: seq<Entry>, listed: set<Id>) {
    && (forall i, j | 0 <= i < j < |roadmap| :: roadmap[i].id != roadmap[j].id)
    && (forall id :: id in listed <==> exists k :: 0 <= k < |roadmap| && roadmap[k].id == id)
  }

  // The next entry of this depth will find its parent at `j`.
  ghost predicate Awaits(E: set<(Id, Id)>, roadmap: seq<Entry>, j: int, id: Id, depth: nat) {
    && 0 <= j < |roadmap| && roadmap[j].depth + 1 == depth && (roadmap[j].id, id) in E
    && forall i | j < i < |roadmap| :: roadmap[i].depth >= depth
  }

  lemma AppendEntry(E: set<(Id, Id)>, roadmap: seq<Entry>, listed: set<Id>, id: Id, depth: nat)
    requires Nested(E, roadmap) && ListsOnce(roadmap, listed) && id !in listed
    requires depth > 0 ==> exists j :: Awaits(E, roadmap, j, id, depth)
    ensures Nested(E, roadmap + [Entry(id, depth)]) && ListsOnce(roadmap + [Entry(id, depth)], listed + {id})
  {
    var next := roadmap + [Entry(id, depth)];
    forall k | 0 <= k < |next| && next[k].depth > 0 ensures exists j :: IsParent(E, next, j, k) {
      if k < |roadmap| {
        var j :| IsParent(E, roadmap, j, k);
        assert IsParent(E, next, j, k);
      } else {
        var j :| Awaits(E, roadmap, j, id, depth);
        assert IsParent(E, next, j, k);
      }
    }
    assert next[|roadmap|].id == id;
    forall x | x in listed ensures exists k :: 0 <= k < |next| && next[k].id == x {
      var k :| 0 <= k < |roadmap| && roadmap[k].id == x;
      assert next[k].id == x;
    }
  }

  // No edge leaves what has been listed since.
  ghost predicate ClosedSince(E: set<(Id, Id)>, before: set<Id>, listed: set<Id>) {
    forall u, v | u in listed - before && (u, v) in E :: v in listed
  }

  // What has been appended since is nowhere shallower than `depth`.
  ghost predicate DeepSince(before: seq<Entry>, roadmap: seq<Entry>, depth: nat) {
    before <= roadmap && forall k | |before| <= k < |roadmap| :: roadmap[k].depth >= depth
  }

  // Every appended entry of exactly this depth is one of the items.
  ghost predicate TopsAmong(before: seq<Entry>, roadmap: seq<Entry>, depth: nat, items: seq<Task>) {
    forall k | |before| <= k < |roadmap| && roadmap[k].depth == depth :: HasTask(items, roadmap[k].id)
  }

  lemma TopsStep(before: seq<Entry>, mid: seq<Entry>, roadmap: seq<Entry>, depth: nat, items: seq<Task>, n: nat)
    requires before <= mid && n < |items| && TopsAmong(before, mid, depth, items[..n])
    requires roadmap == mid || DeepSince(mid + [Entry(items[n].id, depth)], roadmap, depth + 1)
    ensures TopsAmong(before, roadmap, depth, items[..n + 1])
  {
    TakeNext(items, n);
    forall k | |before| <= k < |roadmap| && roadmap[k].depth == depth ensures HasTask(items[..n + 1], roadmap[k].id) {
      if k < |mid| {
        assert mid[k] == roadmap[k];
        var t :| t in items[..n] && t.id == mid[k].id;
        assert t in items[..n + 1];
      } else {
        assert roadmap[|mid|] == Entry(items[n].id, depth);
        assert items[n] in items[..n + 1];
      }
    }
  }

  // Containment between loaded tasks.
  ghost function LoadedEdges(tasks: seq<Task>, children: map<Id, seq<Id>>): set<(Id, Id)> {
    set a, t | a in children && t in tasks && t.id in children[a] :: (a, t.id)
  }

  function LoadedChildren(tasks: seq<Task>, children: map<Id, seq<Id>>, id: Id): seq<Task> {
    Filter((child: Task) => id in children && child.id in children[id], tasks)
  }

  lemma LoadedChildrenAre(tasks: seq<Task>, children: map<Id, seq<Id>>, id: Id)
    ensures forall t | t in LoadedChildren(tasks, children, id) ::
      t in tasks && (id, t.id) in LoadedEdges(tasks, children)
    ensures forall v | (id, v) in LoadedEdges(tasks, children) :: HasTask(LoadedChildren(tasks, children, id), v)
  {
    FilterMembers((child: Task) => id in children && child.id in children[id], tasks);
    forall v | (id, v) in LoadedEdges(tasks, children) ensures HasTask(LoadedChildren(tasks, children, id), v) {
      var child :| child in tasks && child.id == v && child.id in children[id];
      assert child in LoadedChildren(tasks, children, id);
    }
  }

  lemma ClosedAfterChildren(E: set<(Id, Id)>, before: set<Id>, id: Id, below: seq<Task>, listed: set<Id>)
    requires ClosedSince(E, before + {id}, listed) && forall t | t in below :: t.id in listed
    requires forall v | (id, v) in E :: HasTask(below, v)
    ensures ClosedSince(E, before, listed)
  {
  }

  // ---- The order of the roadmap ----

  // Some task with the first id stands before one with the second.
  ghost predicate Before(tasks: seq<Task>, a: Id, b: Id) {
    exists p, q :: 0 <= p < q < |tasks| && tasks[p].id == a && tasks[q].id == b
  }

  // Entry `i` has this depth and nothing shallower has been listed since: the next entry of this depth is its sibling.
  predicate OpenAt(roadmap: seq<Entry>, i: int, depth: nat) {
    && 0 <= i < |roadmap| && roadmap[i].depth == depth
    && forall m | i < m < |roadmap| :: roadmap[m].depth >= depth
  }

  // Entries with the same parent entry stand in the order of `tasks`.
  ghost predicate SiblingsOrdered(tasks: seq<Task>, roadmap: seq<Entry>) {
    forall i, k | 0 <= k < |roadmap| && roadmap[k].depth > 0 && OpenAt(roadmap[..k], i, roadmap[k].depth) ::
      Before(tasks, roadmap[i].id, roadmap[k].id)
  }

  // An entry for this task would stand in order.
  ghost predicate InOrder(tasks: seq<Task>, roadmap: seq<Entry>, id: Id, depth: nat) {
    depth > 0 ==> forall i | OpenAt(roadmap, i, depth) :: Before(tasks, roadmap[i].id, id)
  }

  lemma SiblingsStep(tasks: seq<Task>, roadmap: seq<Entry>, id: Id, depth: nat)
    requires SiblingsOrdered(tasks, roadmap) && InOrder(tasks, roadmap, id, depth)
    ensures SiblingsOrdered(tasks, roadmap + [Entry(id, depth)])
  {
    var next := roadmap + [Entry(id, depth)];
    assert next[..|roadmap|] == roadmap;
    forall i, k | 0 <= k < |next| && next[k].depth > 0 && OpenAt(next[..k], i, next[k].depth)
      ensures Before(tasks, next[i].id, next[k].id)
    {
      if k < |roadmap| {
        assert next[..k] == roadmap[..k];
      }
    }
  }

  // The items are some of the tasks, in their order.
  ghost predicate Subsequence(items: seq<Task>, tasks: seq<Task>) {
    forall p, q | 0 <= p < q < |items| :: Before(tasks, items[p].id, items[q].id)
  }

  lemma SameSubsequence(tasks: seq<Task>)
    ensures Subsequence(tasks, tasks)
  {
  }

  lemma {:induction false} FilterIsSubsequence(p: Task -> bool, tasks: seq<Task>)
    ensures Subsequence(Filter(p, tasks), tasks)
  {
    if tasks != [] {
      var rest, kept := tasks[1..], Filter(p, tasks[1..]);
      FilterIsSubsequence(p, rest);
      FilterMembers(p, rest);
      forall i, k | 0 <= i < k < |kept| ensures Before(tasks, kept[i].id, kept[k].id) {
        BeforeInTail(tasks, kept[i].id, kept[k].id);
      }
      forall k | 0 <= k < |kept| ensures Before(tasks, tasks[0].id, kept[k].id) {
        assert kept[k] in rest;
        HeadIsBefore(tasks, kept[k]);
      }
    }
  }

  lemma BeforeInTail(tasks: seq<Task>, a: Id, b: Id)
    requires tasks != [] && Before(tasks[1..], a, b)
    ensures Before(tasks, a, b)
  {
    var p, q :| 0 <= p < q < |tasks[1..]| && tasks[1..][p].id == a && tasks[1..][q].id == b;
    assert tasks[p + 1].id == a && tasks[q + 1].id == b;
  }

  lemma HeadIsBefore(tasks: seq<Task>, t: Task)
    requires tasks != [] && t in tasks[1..]
    ensures Before(tasks, tasks[0].id, t.id)
  {
    var q :| 0 <= q < |tasks[1..]| && tasks[1..][q] == t;
    assert tasks[q + 1] == t;
  }

  // The appended entries of this depth stand in the order of the items.
  ghost predicate TopsOrdered(before: seq<Entry>, roadmap: seq<Entry>, depth: nat, items: seq<Task>) {
    forall i, k | |before| <= i < k < |roadmap| && roadmap[i].depth == depth && roadmap[k].depth == depth ::
      Before(items, roadmap[i].id, roadmap[k].id)
  }

  // Every top listed so far stands before the next item.
  lemma TopsBefore(before: seq<Entry>, mid: seq<Entry>, depth: nat, items: seq<Task>, n: nat)
    requires n < |items| && TopsAmong(before, mid, depth, items[..n])
    ensures forall i | |before| <= i < |mid| && mid[i].depth == depth :: Before(items, mid[i].id, items[n].id)
  {
    forall i | |before| <= i < |mid| && mid[i].depth == depth ensures Before(items, mid[i].id, items[n].id) {
      var t :| t in items[..n] && t.id == mid[i].id;
      var p :| 0 <= p < n && items[..n][p] == t;
      assert items[p].id == mid[i].id;
    }
  }

  lemma TopsOrderedStep(before: seq<Entry>, mid: seq<Entry>, roadmap: seq<Entry>, depth: nat, items: seq<Task>, n: nat)
    requires before <= mid && n < |items|
    requires TopsAmong(before, mid, depth, items[..n]) && TopsOrdered(before, mid, depth, items)
    requires roadmap == mid || DeepSince(mid + [Entry(items[n].id, depth)], roadmap, depth + 1)
    ensures TopsOrdered(before, roadmap, depth, items)
  {
    TopsBefore(before, mid, depth, items, n);
    if roadmap != mid {
      assert roadmap[|mid|] == Entry(items[n].id, depth);
      assert forall i | 0 <= i < |mid| :: roadmap[i] == mid[i];
    }
  }

  // What listing the first n items has done.
  ghost predicate SoFar(E: set<(Id, Id)>, before: set<Id>, start: seq<Entry>, listed: set<Id>, roadmap: seq<Entry>,
      depth: nat, items: seq<Task>, n: nat)
    requires n <= |items|
  {
    && before <= listed && (forall i | 0 <= i < n :: items[i].id in listed)
    && DeepSince(start, roadmap, depth) && ClosedSince(E, before, listed)
    && TopsAmong(start, roadmap, depth, items[..n]) && TopsOrdered(start, roadmap, depth, items)
  }

  lemma SoFarStep(E: set<(Id, Id)>, before: set<Id>, start: seq<Entry>, midListed: set<Id>, mid: seq<Entry>,
      listed: set<Id>, roadmap: seq<Entry>, depth: nat, items: seq<Task>, n: nat)
    requires n < |items| && SoFar(E, before, start, midListed, mid, depth, items, n)
    requires midListed <= listed && items[n].id in listed
    requires DeepSince(mid, roadmap, depth) && ClosedSince(E, midListed, listed)
    requires roadmap == mid || DeepSince(mid + [Entry(items[n].id, depth)], roadmap, depth + 1)
    ensures SoFar(E, before, start, listed, roadmap, depth, items, n + 1)
  {
    TopsStep(start, mid, roadmap, depth, items, n);
    TopsOrderedStep(start, mid, roadmap, depth, items, n);
    DeepFurther(start, mid, roadmap, depth);
    ClosedFurther(E, before, midListed, listed);
  }

  lemma DeepFurther(start: seq<Entry>, mid: seq<Entry>, roadmap: seq<Entry>, depth: nat)
    requires DeepSince(start, mid, depth) && DeepSince(mid, roadmap, depth)
    ensures DeepSince(start, roadmap, depth)
  {
  }

  lemma ClosedFurther(E: set<(Id, Id)>, before: set<Id>, midListed: set<Id>, listed: set<Id>)
    requires ClosedSince(E, before, midListed) && ClosedSince(E, midListed, listed) && midListed <= listed
    ensures ClosedSince(E, before, listed)
  {
  }

  lemma AwaitsStays(E: set<(Id, Id)>, start: seq<Entry>, roadmap: seq<Entry>, j: int, id: Id, depth: nat)
    requires Awaits(E, start, j, id, depth) && DeepSince(start, roadmap, depth)
    ensures Awaits(E, roadmap, j, id, depth)
  {
  }

  lemma NothingSoFar(E: set<(Id, Id)>, listed: set<Id>, roadmap: seq<Entry>, depth: nat, items: seq<Task>)
    ensures SoFar(E, listed, roadmap, listed, roadmap, depth, items, 0)
  {
  }

  // Roots, or the children of the last entry, in the order of `tasks`.
  ghost predicate MayFollow(E: set<(Id, Id)>, tasks: seq<Task>, start: seq<Entry>, j: int, depth: nat,
      items: seq<Task>)
  {
    && Subsequence(items, tasks)
    && (depth > 0 ==> j == |start| - 1 && forall t | t in items :: Awaits(E, start, j, t.id, depth))
  }

  lemma ChildrenFollow(tasks: seq<Task>, children: map<Id, seq<Id>>, roadmap: seq<Entry>, id: Id, depth: nat)
    ensures MayFollow(LoadedEdges(tasks, children), tasks, roadmap + [Entry(id, depth)], |roadmap|, depth + 1,
      LoadedChildren(tasks, children, id))
    ensures forall t | t in LoadedChildren(tasks, children, id) :: t in tasks
    ensures forall v | (id, v) in LoadedEdges(tasks, children) :: HasTask(LoadedChildren(tasks, children, id), v)
  {
    LoadedChildrenAre(tasks, children, id);
    FilterIsSubsequence((child: Task) => id in children && child.id in children[id], tasks);
  }

  lemma MayListNext(E: set<(Id, Id)>, tasks: seq<Task>, before: set<Id>, start: seq<Entry>, listed: set<Id>,
                    roadmap: seq<Entry>, j: int, depth: nat, items: seq<Task>, n: nat)
    requires n < |items| && MayFollow(E, tasks, start, j, depth, items)
    requires SoFar(E, before, start, listed, roadmap, depth, items, n)
    ensures depth > 0 ==> exists j :: Awaits(E, roadmap, j, items[n].id, depth)
    ensures InOrder(tasks, roadmap, items[n].id, depth)
  {
    if depth > 0 {
      assert items[n] in items;
      AwaitsStays(E, start, roadmap, j, items[n].id, depth);
    }
    NextInOrder(tasks, start, roadmap, depth, items, n);
  }

  lemma SoFarDone(E: set<(Id, Id)>, before: set<Id>, start: seq<Entry>, listed: set<Id>, roadmap: seq<Entry>,
                  depth: nat, items: seq<Task>)
    requires SoFar(E, before, start, listed, roadmap, depth, items, |items|)
    ensures TopsAmong(start, roadmap, depth, items) && forall t | t in items :: t.id in listed
  {
    TakeAll(items);
  }

  // The children of the last entry: no earlier entry is a sibling of theirs.
  lemma NextInOrder(tasks: seq<Task>, before: seq<Entry>, mid: seq<Entry>, depth: nat, items: seq<Task>, n: nat)
    requires before <= mid && n < |items| && Subsequence(items, tasks) && TopsAmong(before, mid, depth, items[..n])
    requires depth > 0 ==> before != [] && before[|before| - 1].depth < depth
    ensures InOrder(tasks, mid, items[n].id, depth)
  {
    TopsBefore(before, mid, depth, items, n);
    if depth > 0 {
      assert mid[|before| - 1] == before[|before| - 1];
      forall i | OpenAt(mid, i, depth) ensures Before(tasks, mid[i].id, items[n].id) {
        assert |before| <= i;
        var p, q :| 0 <= p < q < |items| && items[p].id == mid[i].id && items[q].id == items[n].id;
      }
    }
  }

  // What has been appended below an entry is appended since before it.
  lemma DeepBelow(before: seq<Entry>, entered: seq<Entry>, roadmap: seq<Entry>, id: Id, depth: nat)
    requires entered == before + [Entry(id, depth)] && DeepSince(entered, roadmap, depth + 1)
    ensures DeepSince(before, roadmap, depth)
  {
  }

  // A task and everything below it has been listed.
  lemma ListedBelow(E: set<(Id, Id)>, before: set<Id>, start: seq<Entry>, entered: seq<Entry>, listed: set<Id>,
                    roadmap: seq<Entry>, id: Id, depth: nat, below: seq<Task>)
    requires entered == start + [Entry(id, depth)]
    requires SoFar(E, before + {id}, entered, listed, roadmap, depth + 1, below, |below|)
    requires forall v | (id, v) in E :: HasTask(below, v)
    ensures before <= listed && id in listed && ClosedSince(E, before, listed)
    ensures DeepSince(start, roadmap, depth) && DeepSince(start + [Entry(id, depth)], roadmap, depth + 1)
  {
    SoFarDone(E, before + {id}, entered, listed, roadmap, depth + 1, below);
    DeepBelow(start, entered, roadmap, id, depth);
    ClosedAfterChildren(E, before, id, below, listed);
  }

  class RoadmapBuilder {
    const tasks: seq<Task>
    const children: map<Id, seq<Id>>
    var listed: set<Id>
    var roadmap: seq<Entry>

    ghost predicate Valid()
      reads this
    {
      && (forall t | t in tasks :: t.id in children)
      && Nested(Edges(), roadmap) && ListsOnce(roadmap, listed) && listed <= Loaded()
      && SiblingsOrdered(tasks, roadmap)
    }

    ghost function Edges(): set<(Id, Id)> {
      LoadedEdges(tasks, children)
    }

    ghost function Loaded(): set<Id> {
      set t | t in tasks :: t.id
    }

    constructor (tasks: seq<Task>, children: map<Id, seq<Id>>)
      requires forall t | t in tasks :: t.id in children
      ensures Valid() && roadmap == [] && listed == {} && this.tasks == tasks && this.children == children
    {
      this.tasks, this.children := tasks, children;
      listed, roadmap := {}, [];
    }

    /** Appends the task and everything below it that is not listed yet. */
    method List(task: Task, depth: nat)
      requires Valid() && task in tasks
      requires depth > 0 ==> exists j :: Awaits(Edges(), roadmap, j, task.id, depth)
      requires InOrder(tasks, roadmap, task.id, depth)
      modifies this
      ensures Valid() && old(listed) <= listed && task.id in listed
      ensures DeepSince(old(roadmap), roadmap, depth) && ClosedSince(Edges(), old(listed), listed)
      ensures roadmap == old(roadmap) || DeepSince(old(roadmap) + [Entry(task.id, depth)], roadmap, depth + 1)
      decreases Loaded() - listed, 0
    {
      if task.id in listed {
        return;
      }
      ghost var E, before, start := Edges(), listed, roadmap;
      ghost var entered := start + [Entry(task.id, depth)];
      AppendEntry(E, start, before, task.id, depth);
      SiblingsStep(tasks, start, task.id, depth);
      listed := listed + {task.id};
      roadmap := roadmap + [Entry(task.id, depth)];
      var below := LoadedChildren(tasks, children, task.id);
      ChildrenFollow(tasks, children, start, task.id, depth);
      assert task.id in Loaded() - before;
      ListAll(below, depth + 1, |start|);
      ListedBelow(E, before, start, entered, listed, roadmap, task.id, depth, below);
    }

    /** Lists the tasks one after the other: roots at depth 0, or the children of entry `j`. */
    method ListAll(items: seq<Task>, depth: nat, ghost j: int)
      requires Valid() && (forall t | t in items :: t in tasks)
      requires MayFollow(Edges(), tasks, roadmap, j, depth, items)
      modifies this
      ensures Valid()
      ensures SoFar(Edges(), old(listed), old(roadmap), listed, roadmap, depth, items, |items|)
      decreases Loaded() - listed, 1
    {
      ghost var E, before, start := Edges(), listed, roadmap;
      NothingSoFar(E, before, start, depth, items);
      for n := 0 to |items|
        invariant Valid() && before <= listed
        invariant SoFar(E, before, start, listed, roadmap, depth, items, n)
      {
        ghost var mid, midListed := roadmap, listed;
        MayListNext(E, tasks, before, start, listed, roadmap, j, depth, items, n);
        List(items[n], depth);
        SoFarStep(E, before, start, midListed, mid, listed, roadmap, depth, items, n);
      }
    }
  }

  // A task without a loaded parent.
  predicate IsRoot(children: map<Id, seq<Id>>, t: Task) {
    t.parent.None? || t.parent.value !in children
  }

  ghost predicate Rooted(tasks: seq<Task>, children: map<Id, seq<Id>>, id: Id) {
    exists r :: r in tasks && IsRoot(children, r) && Reaches(LoadedEdges(tasks, children), r.id, id)
  }

  ghost predicate RootId(tasks: seq<Task>, children: map<Id, seq<Id>>, id: Id) {
    exists r :: r in tasks && IsRoot(children, r) && r.id == id
  }

  // Every task once, each below a parent, and at the top only roots and tasks that no root reaches.
  ghost predicate IsRoadmap(tasks: seq<Task>, children: map<Id, seq<Id>>, roadmap: seq<Entry>) {
    && (forall i, j | 0 <= i < j < |roadmap| :: roadmap[i].id != roadmap[j].id)
    && (forall id :: HasTask(tasks, id) <==> exists k :: 0 <= k < |roadmap| && roadmap[k].id == id)
    && Nested(LoadedEdges(tasks, children), roadmap)
    && (forall k | 0 <= k < |roadmap| && roadmap[k].depth == 0 && Rooted(tasks, children, roadmap[k].id) ::
          RootId(tasks, children, roadmap[k].id))
    && SiblingsOrdered(tasks, roadmap) && TopEntriesOrdered(tasks, children, roadmap)
  }

  // At the top the roots come first, and both they and the others stand in the order of `tasks`.
  ghost predicate TopEntriesOrdered(tasks: seq<Task>, children: map<Id, seq<Id>>, roadmap: seq<Entry>) {
    forall i, k | 0 <= i < k < |roadmap| && roadmap[i].depth == 0 && roadmap[k].depth == 0 ::
      && (RootId(tasks, children, roadmap[k].id) ==> RootId(tasks, children, roadmap[i].id))
      && ((RootId(tasks, children, roadmap[i].id) <==> RootId(tasks, children, roadmap[k].id)) ==>
        Before(tasks, roadmap[i].id, roadmap[k].id))
  }

  lemma TopsAreOrdered(tasks: seq<Task>, children: map<Id, seq<Id>>, roots: seq<Task>, first: seq<Entry>,
                       rooted: set<Id>, roadmap: seq<Entry>)
    requires (forall t :: t in roots <==> t in tasks && IsRoot(children, t)) && Subsequence(roots, tasks)
    requires first <= roadmap && ListsOnce(first, rooted)
    requires forall i, j | 0 <= i < j < |roadmap| :: roadmap[i].id != roadmap[j].id
    requires forall r | r in roots :: r.id in rooted
    requires TopsAmong([], first, 0, roots) && TopsOrdered([], first, 0, roots) && TopsOrdered(first, roadmap, 0, tasks)
    ensures TopEntriesOrdered(tasks, children, roadmap)
  {
    forall k | |first| <= k < |roadmap| ensures !RootId(tasks, children, roadmap[k].id) {
      LaterIsNoRoot(tasks, children, roots, first, rooted, roadmap, k);
    }
    forall i | 0 <= i < |first| && first[i].depth == 0 ensures RootId(tasks, children, roadmap[i].id) {
      assert HasTask(roots, first[i].id);
    }
    forall i, k | 0 <= i < k < |first| && first[i].depth == 0 && first[k].depth == 0
      ensures Before(tasks, roadmap[i].id, roadmap[k].id)
    {
      var p, q :| 0 <= p < q < |roots| && roots[p].id == first[i].id && roots[q].id == first[k].id;
      assert Before(tasks, roots[p].id, roots[q].id);
    }
  }

  lemma LaterIsNoRoot(tasks: seq<Task>, children: map<Id, seq<Id>>, roots: seq<Task>, first: seq<Entry>,
                      rooted: set<Id>, roadmap: seq<Entry>, k: nat)
    requires forall t :: t in roots <==> t in tasks && IsRoot(children, t)
    requires first <= roadmap && ListsOnce(first, rooted) && |first| <= k < |roadmap|
    requires forall i, j | 0 <= i < j < |roadmap| :: roadmap[i].id != roadmap[j].id
    requires forall r | r in roots :: r.id in rooted
    ensures !RootId(tasks, children, roadmap[k].id)
  {
    assert forall i | 0 <= i < |first| :: first[i] == roadmap[i];
    assert roadmap[k].id !in rooted;
  }

  method BuildRoadmap(tasks: seq<Task>, children: map<Id, seq<Id>>) returns (roadmap: seq<Entry>)
    requires ChildrenOf(tasks, children)
    ensures IsRoadmap(tasks, children, roadmap)
  {
    var builder := new RoadmapBuilder(tasks, children);
    ghost var E := builder.Edges();
    var roots := Filter((t: Task) => IsRoot(children, t), tasks);
    RootsAre(tasks, children);
    FilterIsSubsequence((t: Task) => IsRoot(children, t), tasks);
    SameSubsequence(tasks);
    builder.ListAll(roots, 0, 0);
    ghost var first, rooted := builder.roadmap, builder.listed;
    SoFarDone(E, {}, [], rooted, first, 0, roots);
    builder.ListAll(tasks, 0, 0);
    roadmap := builder.roadmap;
    SoFarDone(E, rooted, first, builder.listed, roadmap, 0, tasks);
    TopsAreOrdered(tasks, children, roots, first, rooted, roadmap);
    RoadmapComplete(tasks, children, roots, first, rooted, roadmap, builder.listed);
  }

  lemma RootsAre(tasks: seq<Task>, children: map<Id, seq<Id>>)
    ensures var roots := Filter((t: Task) => IsRoot(children, t), tasks);
      forall t :: t in roots <==> t in tasks && IsRoot(children, t)
  {
    FilterMembers((t: Task) => IsRoot(children, t), tasks);
  }

  lemma RoadmapComplete(tasks: seq<Task>, children: map<Id, seq<Id>>, roots: seq<Task>, first: seq<Entry>,
                        rooted: set<Id>, roadmap: seq<Entry>, listed: set<Id>)
    requires forall t :: t in roots <==> t in tasks && IsRoot(children, t)
    requires Nested(LoadedEdges(tasks, children), roadmap) && ListsOnce(first, rooted) && ListsOnce(roadmap, listed)
    requires first <= roadmap && ClosedSince(LoadedEdges(tasks, children), {}, rooted)
    requires forall r | r in roots :: r.id in rooted
    requires TopsAmong([], first, 0, roots)
    requires (forall t | t in tasks :: t.id in listed) && listed <= set t | t in tasks :: t.id
    requires SiblingsOrdered(tasks, roadmap) && TopEntriesOrdered(tasks, children, roadmap)
    ensures IsRoadmap(tasks, children, roadmap)
  {
    AllListed(tasks, listed);
    assert Closed(LoadedEdges(tasks, children), rooted);
    forall k | 0 <= k < |roadmap| && roadmap[k].depth == 0 && Rooted(tasks, children, roadmap[k].id)
      ensures RootId(tasks, children, roadmap[k].id)
    {
      RootedIsRoot(tasks, children, roots, first, rooted, roadmap, k);
    }
  }

  lemma AllListed(tasks: seq<Task>, listed: set<Id>)
    requires (forall t | t in tasks :: t.id in listed) && listed <= set t | t in tasks :: t.id
    ensures forall id :: id in listed <==> HasTask(tasks, id)
  {
  }

  // What a root reaches has been listed with the roots, and at the top only as a root.
  lemma RootedIsRoot(tasks: seq<Task>, children: map<Id, seq<Id>>, roots: seq<Task>, first: seq<Entry>,
                     rooted: set<Id>, roadmap: seq<Entry>, k: nat)
    requires forall t :: t in roots <==> t in tasks && IsRoot(children, t)
    requires ListsOnce(first, rooted) && first <= roadmap && Closed(LoadedEdges(tasks, children), rooted)
    requires forall i, j | 0 <= i < j < |roadmap| :: roadmap[i].id != roadmap[j].id
    requires (forall r | r in roots :: r.id in rooted) && TopsAmong([], first, 0, roots)
    requires k < |roadmap| && roadmap[k].depth == 0 && Rooted(tasks, children, roadmap[k].id)
    ensures RootId(tasks, children, roadmap[k].id)
  {
    var r :| r in tasks && IsRoot(children, r) && Reaches(LoadedEdges(tasks, children), r.id, roadmap[k].id);
    var p :| PathFromTo(LoadedEdges(tasks, children), p, r.id, roadmap[k].id);
    ClosedHoldsPath(LoadedEdges(tasks, children), rooted, p);
    assert roadmap[k].id in rooted;
    var i :| 0 <= i < |first| && first[i].id == roadmap[k].id;
    assert roadmap[i] == first[i];
    assert HasTask(roots, first[i].id);
  }

  // ---- createTaskProgressModel ----

  // The model of the loaded tasks.
  ghost predicate ModelOf(tasks: seq<Task>, model: Model) {
    && model.Valid() && ChildrenOf(tasks, model.children) && model.recorded == RecordedStatus(tasks)
    && (forall id :: id in model.byId <==> HasTask(tasks, id))
    && (forall t | t in tasks :: model.byId[t.id] == t)
  }

  function ById(tasks: seq<Task>): map<Id, Task>
    requires DistinctIds(tasks)
  {
    map t | t in tasks :: t.id := t
  }

  lemma ByIdHolds(tasks: seq<Task>)
    requires DistinctIds(tasks)
    ensures forall id :: id in ById(tasks) <==> HasTask(tasks, id)
    ensures forall t | t in tasks :: t.id in ById(tasks) && ById(tasks)[t.id] == t
  {
  }

  method BuildModel(tasks: seq<Task>) returns (model: Model)
    requires DistinctIds(tasks)
    ensures ModelOf(tasks, model)
  {
    var children := CollectChildren(tasks);
    ByIdHolds(tasks);
    model := Model(ById(tasks), children, RecordedStatus(tasks));
    assert model.byId.Keys == model.children.Keys;
  }

  // The position of the record with this id, or the end.
  function IndexOfId(tasks: seq<Task>, id: Id): (k: nat)
    ensures k <= |tasks| && (k < |tasks| ==> tasks[k].id == id)
    ensures k == |tasks| ==> forall t | t in tasks :: t.id != id
  {
    if tasks == [] then 0
    else if tasks[0].id == id then 0
    else
      assert tasks == [tasks[0]] + tasks[1..];
      1 + IndexOfId(tasks[1..], id)
  }

  // One more record replaces the one with its id, or comes last.
  function WithRecord(records: seq<Task>, last: Task): seq<Task> {
    var k := IndexOfId(records, last.id);
    if k < |records| then records[k := last] else records + [last]
  }

  /** The values of `taskById`: an id keeps the place of its first record and the value of its last one. */
  function Records(tasks: seq<Task>): seq<Task> {
    if tasks == [] then []
    else WithRecord(Records(tasks[..|tasks| - 1]), tasks[|tasks| - 1])
  }

  // `t` is the last record with its id.
  ghost predicate LastRecord(tasks: seq<Task>, t: Task) {
    exists i :: 0 <= i < |tasks| && tasks[i] == t && forall j | i < j < |tasks| :: tasks[j].id != t.id
  }

  lemma LastRecordPush(tasks: seq<Task>, last: Task, t: Task)
    ensures LastRecord(tasks + [last], t) <==> t == last || (LastRecord(tasks, t) && t.id != last.id)
  {
    var all := tasks + [last];
    if LastRecord(tasks, t) && t.id != last.id {
      var i :| 0 <= i < |tasks| && tasks[i] == t && forall j | i < j < |tasks| :: tasks[j].id != t.id;
      assert all[i] == t;
    }
    if t == last {
      assert all[|tasks|] == t;
    }
    if LastRecord(all, t) && t != last {
      var i :| 0 <= i < |all| && all[i] == t && forall j | i < j < |all| :: all[j].id != t.id;
      assert all[|tasks|].id != t.id && tasks[i] == t;
      assert forall j | i < j < |tasks| :: all[j] == tasks[j];
    }
  }

  /** Repeated ids collapse: exactly the last record of each id is loaded, once. */
  lemma {:induction false} RecordsAreLast(tasks: seq<Task>)
    ensures DistinctIds(Records(tasks)) && forall t :: t in Records(tasks) <==> LastRecord(tasks, t)
  {
    if tasks != [] {
      var front, last := tasks[..|tasks| - 1], tasks[|tasks| - 1];
      RecordsAreLast(front);
      assert tasks == front + [last];
      forall t ensures t in Records(tasks) <==> LastRecord(tasks, t) {
        LastRecordPush(front, last, t);
        RecordsPush(Records(front), last, t);
      }
      RecordsStayDistinct(Records(front), last);
    }
  }

  lemma RecordsPush(records: seq<Task>, last: Task, t: Task)
    requires DistinctIds(records)
    ensures t in WithRecord(records, last) <==> t == last || (t in records && t.id != last.id)
  {
    var k, next := IndexOfId(records, last.id), WithRecord(records, last);
    if t in records && t.id != last.id {
      var i :| 0 <= i < |records| && records[i] == t;
      assert next[i] == t;
    }
    assert k < |next| && next[k] == last;
  }

  lemma RecordsStayDistinct(records: seq<Task>, last: Task)
    requires DistinctIds(records)
    ensures DistinctIds(WithRecord(records, last))
  {
    var k, next := IndexOfId(records, last.id), WithRecord(records, last);
    forall i, j | 0 <= i < j < |next| ensures next[i].id != next[j].id {
      if k == |records| && j == k {
        assert records[i] in records;
      }
    }
  }

  method CreateTaskProgressModel(referenceTasks: seq<Task>, taskLe: (Task, Task) -> bool,
                                 quotient: (nat, nat) -> real)
    returns (model: Model, project: Progress, roadmap: seq<Entry>, ghost reached: set<Id>)
    requires Accurate(quotient)
    ensures ModelOf(StableSort(taskLe, Records(referenceTasks)), model)
    ensures IsRoadmap(StableSort(taskLe, Records(referenceTasks)), model.children, roadmap)
    ensures ReachedFrom(model, TaskIds(StableSort(taskLe, Records(referenceTasks))), reached)
    ensures Reports(project, model, reached)
  {
    var records := Records(referenceTasks);
    RecordsAreLast(referenceTasks);
    var tasks := StableSort(taskLe, records);
    SortKeepsDistinctIds(taskLe, records);
    model := BuildModel(tasks);
    project, reached := ProgressFor(model, TaskIds(tasks), quotient);
    roadmap := BuildRoadmap(tasks, model.children);
  }

  function TaskIds(tasks: seq<Task>): seq<Id> {
    seq(|tasks|, i requires 0 <= i < |tasks| => tasks[i].id)
  }

  lemma {:induction false} InsertKeepsDistinctIds(taskLe: (Task, Task) -> bool, t: Task, tasks: seq<Task>)
    requires DistinctIds(tasks) && forall u | u in tasks :: u.id != t.id
    ensures DistinctIds(Insert(taskLe, t, tasks))
  {
    if tasks != [] && !taskLe(t, tasks[0]) {
      InsertKeepsDistinctIds(taskLe, t, tasks[1..]);
      var rest := Insert(taskLe, t, tasks[1..]);
      forall j | 0 <= j < |rest| ensures rest[j].id != tasks[0].id {
        assert rest[j] in multiset(rest);
        assert rest[j] == t || rest[j] in tasks[1..];
      }
    }
  }

  lemma {:induction false} SortKeepsDistinctIds(taskLe: (Task, Task) -> bool, tasks: seq<Task>)
    requires DistinctIds(tasks)
    ensures DistinctIds(StableSort(taskLe, tasks))
  {
    if tasks != [] {
      SortKeepsDistinctIds(taskLe, tasks[1..]);
      SortKeepsMembers(taskLe, tasks[1..]);
      InsertKeepsDistinctIds(taskLe, tasks[0], StableSort(taskLe, tasks[1..]));
    }
  }
}
