/** The board's task list: tasks sorted by sort order, columns as filters of the list, and the move that gives a task
    the midpoint of its new neighbours' sort orders. Sort orders are reals. */
module BoardMoves {
  import opened Common
  import opened Sorting

  datatype Column = Column(project: nat, status: nat)
  datatype Task = Task(id: nat, column: Column, sortOrder: real, createdAt: int, version: nat)

  // ---- Lists, columns and ids ----

  /** The comparison of `sortTasks`. */
  predicate Le(x: Task, y: Task) {
    x.sortOrder < y.sortOrder || (x.sortOrder == y.sortOrder && x.createdAt <= y.createdAt)
  }

  function SortTasks(tasks: seq<Task>): seq<Task> {
    StableSort(Le, tasks)
  }

  function In(column: Column): Task -> bool {
    (task: Task) => task.column == column
  }

  function InBut(column: Column, id: nat): Task -> bool {
    (task: Task) => task.column == column && task.id != id
  }

  function HasId(id: nat): Task -> bool {
    (task: Task) => task.id == id
  }

  function ColumnOf(tasks: seq<Task>, column: Column): seq<Task> {
    Filter(In(column), tasks)
  }

  function Others(tasks: seq<Task>, column: Column, id: nat): seq<Task> {
    Filter(InBut(column, id), tasks)
  }

  ghost predicate Strict(s: seq<Task>) {
    forall i, j | 0 <= i < j < |s| :: s[i].sortOrder < s[j].sortOrder
  }

  ghost predicate IdsUnique(tasks: seq<Task>) {
    forall id: nat :: |Filter(HasId(id), tasks)| <= 1
  }

  ghost predicate ColumnsStrict(tasks: seq<Task>) {
    forall column :: Strict(ColumnOf(tasks, column))
  }

  // ---- Moving ----

  /** The list with the record of this id replaced. */
  function Replace(tasks: seq<Task>, task: Task): (r: seq<Task>)
    ensures |r| == |tasks|
  {
    if tasks == [] then []
    else [if tasks[0].id == task.id then task else tasks[0]] + Replace(tasks[1..], task)
  }

  // Where a task with this id stands, or the end.
  function IndexOf(tasks: seq<Task>, id: nat): (k: nat)
    ensures k <= |tasks|
    ensures k < |tasks| ==> tasks[k].id == id
    ensures forall i | 0 <= i < k :: tasks[i].id != id
  {
    if tasks == [] || tasks[0].id == id then 0 else 1 + IndexOf(tasks[1..], id)
  }

  function TargetIndex(destination: seq<Task>, statusChanged: bool, before: Option<nat>,
        useDropPosition: bool): (k: nat)
    ensures k <= |destination|
    ensures statusChanged && !useDropPosition ==> k == 0
    ensures !statusChanged || useDropPosition ==>
      if before.None? then k == |destination|
      else if k < |destination| then destination[k].id == before.value
      else forall i | 0 <= i < |destination| :: destination[i].id != before.value
  {
    if statusChanged && !useDropPosition then 0
    else if before.Some? then IndexOf(destination, before.value)
    else |destination|
  }

  function SortOrderAt(destination: seq<Task>, k: nat): (order: real)
    requires k <= |destination|
    ensures Strict(destination) ==> forall i | 0 <= i < |destination| ::
      if i < k then destination[i].sortOrder < order else order < destination[i].sortOrder
  {
    if 0 < k < |destination| then (destination[k - 1].sortOrder + destination[k].sortOrder) / 2.0
    else if 0 < k then destination[k - 1].sortOrder + 1024.0
    else if k < |destination| then destination[k].sortOrder - 1024.0
    else 1024.0
  }

  predicate SameIds(a: seq<Task>, b: seq<Task>) {
    |a| == |b| && forall i | 0 <= i < |a| :: a[i].id == b[i].id
  }

  function Inserted(destination: seq<Task>, k: nat, task: Task): seq<Task>
    requires k <= |destination|
  {
    destination[..k] + [task] + destination[k..]
  }

  function TargetColumn(task: Task, status: nat): Column {
    Column(task.column.project, status)
  }

  function TargetOf(tasks: seq<Task>, task: Task, status: nat, before: Option<nat>, useDropPosition: bool): (k: nat)
    ensures k <= |Others(tasks, TargetColumn(task, status), task.id)|
  {
    var destination := Others(tasks, TargetColumn(task, status), task.id);
    TargetIndex(destination, task.column.status != status, before, useDropPosition)
  }

  predicate StaysPut(tasks: seq<Task>, task: Task, status: nat, k: nat)
    requires k <= |Others(tasks, TargetColumn(task, status), task.id)|
  {
    && task.column.status == status
    && SameIds(ColumnOf(tasks, task.column), Inserted(Others(tasks, TargetColumn(task, status), task.id), k, task))
  }

  // The record the move gives the task, and the list it shows at once.
  function MovedTask(tasks: seq<Task>, task: Task, status: nat, before: Option<nat>, useDropPosition: bool): Task {
    var k := TargetOf(tasks, task, status, before, useDropPosition);
    if StaysPut(tasks, task, status, k) then task
    else
      task.(column := TargetColumn(task, status),
        sortOrder := SortOrderAt(Others(tasks, TargetColumn(task, status), task.id), k))
  }

  function MoveResult(tasks: seq<Task>, task: Task, status: nat, before: Option<nat>,
        useDropPosition: bool): seq<Task> {
    if StaysPut(tasks, task, status, TargetOf(tasks, task, status, before, useDropPosition)) then tasks
    else SortTasks(Replace(tasks, MovedTask(tasks, task, status, before, useDropPosition)))
  }

  // ---- Facts about filters of the list ----

  lemma LeIsOrder()
    ensures TotalPreorder(Le)
  {
  }

  lemma {:induction false} OthersUntouched(tasks: seq<Task>, task: Task, column: Column)
    ensures Others(Replace(tasks, task), column, task.id) == Others(tasks, column, task.id)
  {
    if tasks != [] {
      OthersUntouched(tasks[1..], task, column);
    }
  }

  lemma {:induction false} ReplaceKeepsIds(tasks: seq<Task>, task: Task, id: nat)
    ensures |Filter(HasId(id), Replace(tasks, task))| == |Filter(HasId(id), tasks)|
  {
    if tasks != [] {
      ReplaceKeepsIds(tasks[1..], task, id);
    }
  }

  lemma {:induction false} ReplacePutsIn(tasks: seq<Task>, task: Task, old': Task)
    requires old' in tasks && old'.id == task.id
    ensures task in Replace(tasks, task)
  {
    if tasks[0].id != task.id {
      ReplacePutsIn(tasks[1..], task, old');
    }
  }

  // An absent id: a column and the column without that id are the same.
  lemma {:induction false} AbsentId(tasks: seq<Task>, column: Column, id: nat)
    requires Filter(HasId(id), tasks) == []
    ensures ColumnOf(tasks, column) == Others(tasks, column, id)
  {
    if tasks != [] {
      AbsentId(tasks[1..], column, id);
    }
  }

  // A column is the rest of the column and the one task with the id, if that is where it stands.
  lemma {:induction false} ColumnParts(tasks: seq<Task>, task: Task, column: Column)
    requires task in tasks && |Filter(HasId(task.id), tasks)| <= 1
    ensures multiset(ColumnOf(tasks, column)) == multiset(Others(tasks, column, task.id))
      + (if task.column == column then multiset{task} else multiset{})
  {
    if tasks[0].id == task.id {
      assert Filter(HasId(task.id), tasks[1..]) == [];
      AbsentId(tasks[1..], column, task.id);
      FilterMembers(HasId(task.id), tasks[1..]);
      assert task !in Filter(HasId(task.id), tasks[1..]);
      assert tasks[0] == task;
    } else {
      ColumnParts(tasks[1..], task, column);
    }
  }

  lemma {:induction false} AbsentColumn(tasks: seq<Task>, task: Task, column: Column)
    requires task in tasks && |Filter(HasId(task.id), tasks)| <= 1 && task.column != column
    ensures ColumnOf(tasks, column) == Others(tasks, column, task.id)
  {
    if tasks[0].id == task.id {
      assert Filter(HasId(task.id), tasks[1..]) == [];
      AbsentId(tasks[1..], column, task.id);
      FilterMembers(HasId(task.id), tasks[1..]);
      assert task !in Filter(HasId(task.id), tasks[1..]);
      assert tasks[0] == task;
    } else {
      AbsentColumn(tasks[1..], task, column);
    }
  }

  // Others is a filter of the column, so it is strict where the column is.
  lemma OthersStrict(tasks: seq<Task>, column: Column, id: nat)
    requires Strict(ColumnOf(tasks, column))
    ensures Strict(Others(tasks, column, id))
  {
    OthersOfColumn(tasks, column, id);
    FilterStrict(InBut(column, id), ColumnOf(tasks, column));
  }

  lemma {:induction false} OthersOfColumn(tasks: seq<Task>, column: Column, id: nat)
    ensures Others(tasks, column, id) == Filter(InBut(column, id), ColumnOf(tasks, column))
  {
    if tasks != [] {
      OthersOfColumn(tasks[1..], column, id);
    }
  }

  lemma {:induction false} FilterStrict(p: Task -> bool, s: seq<Task>)
    requires Strict(s)
    ensures Strict(Filter(p, s))
  {
    if s != [] {
      FilterStrict(p, s[1..]);
      var rest := Filter(p, s[1..]);
      FilterMembers(p, s[1..]);
      forall j | 0 <= j < |rest| ensures s[0].sortOrder < rest[j].sortOrder {
        assert rest[j] in s[1..];
      }
    }
  }

  // A sorted rearrangement of a strict sequence is that sequence.
  lemma StrictIsSorted(s: seq<Task>, r: seq<Task>)
    requires Strict(r) && multiset(s) == multiset(r)
    ensures SortTasks(s) == r
  {
    LeIsOrder();
    StableSortSorted(Le, s);
    SortedIsUnique(Le, r, SortTasks(s));
  }

  lemma SortedColumn(tasks: seq<Task>, column: Column)
    ensures ColumnOf(SortTasks(tasks), column) == SortTasks(ColumnOf(tasks, column))
  {
    LeIsOrder();
    FilterSort(Le, In(column), tasks);
  }

  lemma SortedOthers(tasks: seq<Task>, column: Column, id: nat)
    ensures multiset(Others(SortTasks(tasks), column, id)) == multiset(Others(tasks, column, id))
  {
    LeIsOrder();
    FilterSort(Le, InBut(column, id), tasks);
  }

  lemma SameId(tasks: seq<Task>, a: Task, b: Task)
    requires a in tasks && b in tasks && a.id == b.id && IdsUnique(tasks)
    ensures a == b
  {
    FilterMembers(HasId(a.id), tasks);
    assert a in Filter(HasId(a.id), tasks) && b in Filter(HasId(a.id), tasks);
  }

  // ---- What replacing a task and sorting does to every column ----

  /** Replacing the record of one task and sorting leaves every column with its other tasks, and the column of the new
      record with that record as well. Where the expected column is strict it is the column that results. */
  lemma {:induction false} ReplacedColumn(tasks: seq<Task>, old': Task, task: Task, column: Column, expected: seq<Task>)
    requires IdsUnique(tasks) && old' in tasks && old'.id == task.id && Strict(expected)
    requires multiset(expected) == multiset(Others(tasks, column, task.id))
      + (if task.column == column then multiset{task} else multiset{})
    ensures ColumnOf(SortTasks(Replace(tasks, task)), column) == expected
  {
    var replaced := Replace(tasks, task);
    ReplacePutsIn(tasks, task, old');
    ReplaceKeepsIds(tasks, task, task.id);
    ColumnParts(replaced, task, column);
    OthersUntouched(tasks, task, column);
    SortedColumn(replaced, column);
    StrictIsSorted(ColumnOf(replaced, column), expected);
  }

  lemma {:induction false} ReplacedIds(tasks: seq<Task>, task: Task)
    requires IdsUnique(tasks)
    ensures IdsUnique(SortTasks(Replace(tasks, task)))
  {
    LeIsOrder();
    forall id: nat ensures |Filter(HasId(id), SortTasks(Replace(tasks, task)))| <= 1 {
      FilterSort(Le, HasId(id), Replace(tasks, task));
      ReplaceKeepsIds(tasks, task, id);
    }
  }

  // ---- What a move does to every column ----

  ghost predicate Board(tasks: seq<Task>) {
    IdsUnique(tasks) && ColumnsStrict(tasks)
  }

  /** The column that a move leaves: the target column has the task inserted at the target index, every other column is
      the old one without the task. */
  function ColumnAfter(tasks: seq<Task>, task: Task, status: nat, before: Option<nat>, useDropPosition: bool,
      column: Column): seq<Task>
  {
    if column == TargetColumn(task, status) then
      Inserted(Others(tasks, column, task.id), TargetOf(tasks, task, status, before, useDropPosition),
        MovedTask(tasks, task, status, before, useDropPosition))
    else Others(tasks, column, task.id)
  }

  lemma InsertedParts(s: seq<Task>, k: nat, task: Task)
    requires k <= |s|
    ensures multiset(Inserted(s, k, task)) == multiset(s) + multiset{task}
  {
    assert s == s[..k] + s[k..];
  }

  lemma InsertedStrict(s: seq<Task>, k: nat, task: Task)
    requires k <= |s| && Strict(s) && task.sortOrder == SortOrderAt(s, k)
    ensures Strict(Inserted(s, k, task))
  {
  }

  // A move that stays put: the column is already the one asked for.
  lemma StaysPutColumn(tasks: seq<Task>, task: Task, status: nat, k: nat)
    requires IdsUnique(tasks) && task in tasks && k <= |Others(tasks, TargetColumn(task, status), task.id)|
    requires StaysPut(tasks, task, status, k)
    ensures ColumnOf(tasks, task.column) == Inserted(Others(tasks, task.column, task.id), k, task)
  {
    var current, desired := ColumnOf(tasks, task.column), Inserted(Others(tasks, task.column, task.id), k, task);
    forall i | 0 <= i < |current| ensures current[i] == desired[i] {
      FilterMembers(In(task.column), tasks);
      FilterMembers(InBut(task.column, task.id), tasks);
      assert current[i] in current && desired[i] in desired;
      SameId(tasks, current[i], desired[i]);
    }
  }

  /** After a move the target column is exactly the old column with the task inserted at the target index, and every
      other column keeps its order apart from losing the moved task. */
  lemma MoveColumns(tasks: seq<Task>, task: Task, status: nat, before: Option<nat>,
      useDropPosition: bool, column: Column)
    requires Board(tasks) && task in tasks
    ensures ColumnOf(MoveResult(tasks, task, status, before, useDropPosition), column)
      == ColumnAfter(tasks, task, status, before, useDropPosition, column)
  {
    var k := TargetOf(tasks, task, status, before, useDropPosition);
    if StaysPut(tasks, task, status, k) {
      if column == task.column {
        StaysPutColumn(tasks, task, status, k);
      } else {
        AbsentColumn(tasks, task, column);
      }
    } else {
      var moved := MovedTask(tasks, task, status, before, useDropPosition);
      ColumnAfterStrict(tasks, task, status, before, useDropPosition, column);
      ColumnAfterParts(tasks, task, status, before, useDropPosition, column);
      ReplacedColumn(tasks, task, moved, column, ColumnAfter(tasks, task, status, before, useDropPosition, column));
    }
  }

  lemma ColumnAfterParts(tasks: seq<Task>, task: Task, status: nat, before: Option<nat>,
      useDropPosition: bool, column: Column)
    ensures multiset(ColumnAfter(tasks, task, status, before, useDropPosition, column))
      == multiset(Others(tasks, column, task.id))
      + (if MovedTask(tasks, task, status, before, useDropPosition).column == column
         then multiset{MovedTask(tasks, task, status, before, useDropPosition)} else multiset{})
  {
    if column == TargetColumn(task, status) {
      InsertedParts(Others(tasks, column, task.id), TargetOf(tasks, task, status, before, useDropPosition),
        MovedTask(tasks, task, status, before, useDropPosition));
    }
  }

  lemma ColumnAfterStrict(tasks: seq<Task>, task: Task, status: nat, before: Option<nat>,
      useDropPosition: bool, column: Column)
    requires ColumnsStrict(tasks) && task in tasks && IdsUnique(tasks)
    ensures Strict(ColumnAfter(tasks, task, status, before, useDropPosition, column))
  {
    OthersStrict(tasks, column, task.id);
    var k := TargetOf(tasks, task, status, before, useDropPosition);
    if column == TargetColumn(task, status) {
      if StaysPut(tasks, task, status, k) {
        StaysPutColumn(tasks, task, status, k);
      } else {
        InsertedStrict(Others(tasks, column, task.id), k, MovedTask(tasks, task, status, before, useDropPosition));
      }
    }
  }

  /** Strictly increasing columns and unique ids survive a move. */
  lemma MoveKeepsBoard(tasks: seq<Task>, task: Task, status: nat, before: Option<nat>,
      useDropPosition: bool)
    requires Board(tasks) && task in tasks
    ensures Board(MoveResult(tasks, task, status, before, useDropPosition))
  {
    var result := MoveResult(tasks, task, status, before, useDropPosition);
    forall column ensures Strict(ColumnOf(result, column)) {
      MoveColumns(tasks, task, status, before, useDropPosition, column);
      ColumnAfterStrict(tasks, task, status, before, useDropPosition, column);
    }
    ReplacedIds(tasks, MovedTask(tasks, task, status, before, useDropPosition));
  }

  // ---- Failure ----

  /** Putting the old record back, as a failed request or an immediate undo does, restores every column. */
  lemma {:induction false} RollbackRestores(tasks: seq<Task>, previous: Task, moved: Task, column: Column)
    requires Board(tasks) && previous in tasks && moved.id == previous.id
    ensures ColumnOf(SortTasks(Replace(SortTasks(Replace(tasks, moved)), previous)), column) == ColumnOf(tasks, column)
  {
    var shown := SortTasks(Replace(tasks, moved));
    ReplacedIds(tasks, moved);
    ReplacePutsIn(tasks, moved, previous);
    SortKeepsMembers(Le, Replace(tasks, moved));
    OthersUntouched(tasks, moved, column);
    SortedOthers(Replace(tasks, moved), column, previous.id);
    ColumnParts(tasks, previous, column);
    ReplacedColumn(shown, moved, previous, column, ColumnOf(tasks, column));
  }

  // ---- The server's answer ----

  // In a list without the id nothing is replaced.
  lemma {:induction false} ReplaceAbsent(tasks: seq<Task>, task: Task)
    requires forall t | t in tasks :: t.id != task.id
    ensures Replace(tasks, task) == tasks
  {
    if tasks != [] {
      ReplaceAbsent(tasks[1..], task);
      assert tasks == [tasks[0]] + tasks[1..];
    }
  }

  lemma {:induction false} ReplaceInColumn(tasks: seq<Task>, record: Task, column: Column)
    requires forall t | t in tasks && t.id == record.id :: t.column == record.column
    ensures ColumnOf(Replace(tasks, record), column) == Replace(ColumnOf(tasks, column), record)
  {
    if tasks != [] {
      ReplaceInColumn(tasks[1..], record, column);
    }
  }

  lemma {:induction false} ReplaceKeepsOrders(s: seq<Task>, record: Task)
    requires forall t | t in s && t.id == record.id :: t.sortOrder == record.sortOrder
    ensures forall i | 0 <= i < |s| :: Replace(s, record)[i].sortOrder == s[i].sortOrder
  {
    if s != [] {
      ReplaceKeepsOrders(s[1..], record);
    }
  }

  // The record stands where the task it replaces stands.
  predicate SamePlace(shown: Task, record: Task) {
    shown.id == record.id && shown.column == record.column && shown.sortOrder == record.sortOrder
  }

  lemma {:induction false} ReplaceStrict(s: seq<Task>, record: Task)
    requires Strict(s) && forall t | t in s && t.id == record.id :: t.sortOrder == record.sortOrder
    ensures Strict(Replace(s, record))
  {
    ReplaceKeepsOrders(s, record);
  }

  lemma OnlyOne(tasks: seq<Task>, shown: Task)
    requires IdsUnique(tasks) && shown in tasks
    ensures forall t | t in tasks && t.id == shown.id :: t == shown
  {
    forall t | t in tasks && t.id == shown.id ensures t == shown {
      SameId(tasks, t, shown);
    }
  }

  /** An answer that leaves the task in its place, as the server's confirmation does, takes the place of the shown
      record in its column and changes nothing else in any column. */
  lemma {:induction false} ConfirmKeepsPlaces(tasks: seq<Task>, shown: Task, record: Task, column: Column)
    requires Board(tasks) && shown in tasks && SamePlace(shown, record)
    ensures ColumnOf(SortTasks(Replace(tasks, record)), column) == Replace(ColumnOf(tasks, column), record)
    ensures Strict(Replace(ColumnOf(tasks, column), record))
  {
    OnlyOne(tasks, shown);
    ReplaceInColumn(tasks, record, column);
    FilterMembers(In(column), tasks);
    ReplaceStrict(ColumnOf(tasks, column), record);
    SortedColumn(Replace(tasks, record), column);
    StrictIsSorted(Replace(ColumnOf(tasks, column), record), Replace(ColumnOf(tasks, column), record));
  }

  /** Any answer at all: the record stands among the other tasks of its column, which keep their order, where its sort
      order puts it; every other column only loses the task. */
  ghost predicate Placed(tasks: seq<Task>, record: Task, column: Column, result: seq<Task>) {
    if column != record.column then result == Others(tasks, column, record.id)
    else SortedBy(Le, result) && exists k: nat :: InsertedAt(Others(tasks, column, record.id), k, record, result)
  }

  predicate InsertedAt(s: seq<Task>, k: nat, task: Task, result: seq<Task>) {
    k <= |s| && result == Inserted(s, k, task)
  }

  // A sequence is its one task with an id, put back among the rest.
  lemma {:induction false} PutBack(s: seq<Task>, column: Column, task: Task) returns (k: nat)
    requires task in s && |Filter(HasId(task.id), s)| <= 1 && forall t | t in s :: t.column == column
    ensures InsertedAt(Others(s, column, task.id), k, task, s)
  {
    var rest := Others(s[1..], column, task.id);
    assert s == [s[0]] + s[1..];
    if s[0].id == task.id {
      assert Filter(HasId(task.id), s[1..]) == [];
      AllOthers(s[1..], column, task.id);
      FilterMembers(HasId(task.id), s[1..]);
      assert task !in Filter(HasId(task.id), s[1..]);
      k := 0;
      assert rest[..0] == [] && rest[0..] == rest;
    } else {
      var j := PutBack(s[1..], column, task);
      k := j + 1;
      assert ([s[0]] + rest)[..k] == [s[0]] + rest[..j];
    }
  }

  lemma {:induction false} AllOthers(s: seq<Task>, column: Column, id: nat)
    requires Filter(HasId(id), s) == [] && forall t | t in s :: t.column == column
    ensures Others(s, column, id) == s
  {
    if s != [] {
      AllOthers(s[1..], column, id);
      assert s == [s[0]] + s[1..];
    }
  }

  // The other tasks of a column keep their order whatever record comes back.
  lemma {:induction false} AnswerKeepsOthers(tasks: seq<Task>, record: Task, column: Column)
    requires Board(tasks)
    ensures Others(SortTasks(Replace(tasks, record)), column, record.id) == Others(tasks, column, record.id)
  {
    LeIsOrder();
    FilterSort(Le, InBut(column, record.id), Replace(tasks, record));
    OthersUntouched(tasks, record, column);
    OthersStrict(tasks, column, record.id);
    StrictIsSorted(Others(tasks, column, record.id), Others(tasks, column, record.id));
  }

  lemma {:induction false} SortedBoard(tasks: seq<Task>, record: Task, shown: Task)
    requires IdsUnique(tasks) && shown in tasks && shown.id == record.id
    ensures record in SortTasks(Replace(tasks, record)) && IdsUnique(SortTasks(Replace(tasks, record)))
  {
    ReplacePutsIn(tasks, record, shown);
    SortKeepsMembers(Le, Replace(tasks, record));
    ReplacedIds(tasks, record);
  }

  lemma ColumnIdsUnique(tasks: seq<Task>, column: Column, id: nat)
    requires IdsUnique(tasks)
    ensures |Filter(HasId(id), ColumnOf(tasks, column))| <= 1
  {
    ColumnHasFewer(tasks, column, id);
  }

  lemma {:induction false} ColumnHasFewer(tasks: seq<Task>, column: Column, id: nat)
    ensures |Filter(HasId(id), ColumnOf(tasks, column))| <= |Filter(HasId(id), tasks)|
  {
    if tasks != [] {
      ColumnHasFewer(tasks[1..], column, id);
    }
  }

  lemma {:induction false} AnswerPlaced(tasks: seq<Task>, shown: Task, record: Task, column: Column)
    requires Board(tasks) && shown in tasks && shown.id == record.id
    ensures Placed(tasks, record, column, ColumnOf(SortTasks(Replace(tasks, record)), column))
  {
    var after := SortTasks(Replace(tasks, record));
    SortedBoard(tasks, record, shown);
    AnswerKeepsOthers(tasks, record, column);
    if column != record.column {
      AbsentColumn(after, record, column);
    } else {
      AnswerInColumn(tasks, record, column, after);
    }
  }

  lemma {:induction false} AnswerInColumn(tasks: seq<Task>, record: Task, column: Column, after: seq<Task>)
    requires after == SortTasks(Replace(tasks, record)) && record in after && IdsUnique(after)
    requires column == record.column
    requires Others(after, column, record.id) == Others(tasks, column, record.id)
    ensures Placed(tasks, record, column, ColumnOf(after, column))
  {
    LeIsOrder();
    SortedColumn(Replace(tasks, record), column);
    StableSortSorted(Le, ColumnOf(Replace(tasks, record), column));
    FilterMembers(In(column), after);
    ColumnIdsUnique(after, column, record.id);
    var k := PutBack(ColumnOf(after, column), column, record);
    OthersOfColumn(after, column, record.id);
    assert InsertedAt(Others(tasks, column, record.id), k, record, ColumnOf(after, column));
  }

  // ---- Runs ----

  // The server stores the place it is sent and gives the record a new version, or refuses.
  datatype Answer = Accepted(version: nat) | Refused

  datatype Move = Move(id: nat, status: nat, before: Option<nat>, useDropPosition: bool, answer: Answer)

  // The record that replaces the shown one in the end.
  function Record(task: Task, moved: Task, answer: Answer): Task {
    match answer
    case Accepted(version) => moved.(version := version)
    case Refused => task
  }

  /** One finished move: the list shown at once, then the server's answer. A move of an id that is gone does nothing. */
  function Settled(tasks: seq<Task>, move: Move): seq<Task> {
    var at := IndexOf(tasks, move.id);
    if at == |tasks| then tasks
    else
      var task := tasks[at];
      var moved := MovedTask(tasks, task, move.status, move.before, move.useDropPosition);
      if StaysPut(tasks, task, move.status, TargetOf(tasks, task, move.status, move.before, move.useDropPosition)) then
        tasks
      else
        SortTasks(Replace(MoveResult(tasks, task, move.status, move.before, move.useDropPosition),
          Record(task, moved, move.answer)))
  }

  function Run(tasks: seq<Task>, moves: seq<Move>): seq<Task> {
    if moves == [] then tasks else Settled(Run(tasks, moves[..|moves| - 1]), moves[|moves| - 1])
  }

  /** The column that a settled move leaves: after an acceptance the column after the move, with the server's record in
      place of the shown one; otherwise the old column. */
  function SettledColumn(tasks: seq<Task>, move: Move, column: Column): seq<Task>
    requires IndexOf(tasks, move.id) < |tasks|
  {
    var task := tasks[IndexOf(tasks, move.id)];
    var moved := MovedTask(tasks, task, move.status, move.before, move.useDropPosition);
    if StaysPut(tasks, task, move.status, TargetOf(tasks, task, move.status, move.before, move.useDropPosition)) then
      ColumnAfter(tasks, task, move.status, move.before, move.useDropPosition, column)
    else if move.answer.Refused? then ColumnOf(tasks, column)
    else
      Replace(ColumnAfter(tasks, task, move.status, move.before, move.useDropPosition, column),
        Record(task, moved, move.answer))
  }

  /** Once settled, an accepted move has put the task at its index and a refused one has left every column alone. */
  lemma {:induction false} SettledColumns(tasks: seq<Task>, move: Move, column: Column)
    requires Board(tasks) && IndexOf(tasks, move.id) < |tasks|
    ensures ColumnOf(Settled(tasks, move), column) == SettledColumn(tasks, move, column)
    ensures Strict(SettledColumn(tasks, move, column))
  {
    var task := tasks[IndexOf(tasks, move.id)];
    MoveColumns(tasks, task, move.status, move.before, move.useDropPosition, column);
    MoveKeepsBoard(tasks, task, move.status, move.before, move.useDropPosition);
    var moved := MovedTask(tasks, task, move.status, move.before, move.useDropPosition);
    if StaysPut(tasks, task, move.status, TargetOf(tasks, task, move.status, move.before, move.useDropPosition)) {
      ColumnAfterStrict(tasks, task, move.status, move.before, move.useDropPosition, column);
    } else if move.answer.Accepted? {
      ReplacePutsIn(tasks, moved, task);
      SortKeepsMembers(Le, Replace(tasks, moved));
      ConfirmKeepsPlaces(SortTasks(Replace(tasks, moved)), moved, Record(task, moved, move.answer), column);
    } else {
      RollbackRestores(tasks, task, moved, column);
    }
  }

  lemma SettledKeepsBoard(tasks: seq<Task>, move: Move)
    requires Board(tasks)
    ensures Board(Settled(tasks, move))
  {
    var at := IndexOf(tasks, move.id);
    if at < |tasks| {
      var task := tasks[at];
      forall column ensures Strict(ColumnOf(Settled(tasks, move), column)) {
        SettledColumns(tasks, move, column);
      }
      MoveKeepsBoard(tasks, task, move.status, move.before, move.useDropPosition);
      var shown := MoveResult(tasks, task, move.status, move.before, move.useDropPosition);
      ReplacedIds(shown,
        Record(task, MovedTask(tasks, task, move.status, move.before, move.useDropPosition), move.answer));
    }
  }

  /** Any run of moves, accepted or refused, keeps every column strictly increasing. */
  lemma {:induction false} RunKeepsBoard(tasks: seq<Task>, moves: seq<Move>)
    requires Board(tasks)
    ensures Board(Run(tasks, moves))
  {
    if moves != [] {
      RunKeepsBoard(tasks, moves[..|moves| - 1]);
      SettledKeepsBoard(Run(tasks, moves[..|moves| - 1]), moves[|moves| - 1]);
    }
  }

  /** No run of moves creates, loses or duplicates a task. */
  lemma {:induction false} RunKeepsTasks(tasks: seq<Task>, moves: seq<Move>, id: nat)
    ensures |Filter(HasId(id), Run(tasks, moves))| == |Filter(HasId(id), tasks)|
  {
    if moves != [] {
      RunKeepsTasks(tasks, moves[..|moves| - 1], id);
      SettledKeepsTasks(Run(tasks, moves[..|moves| - 1]), moves[|moves| - 1], id);
    }
  }

  lemma {:induction false} SettledKeepsTasks(tasks: seq<Task>, move: Move, id: nat)
    ensures |Filter(HasId(id), Settled(tasks, move))| == |Filter(HasId(id), tasks)|
  {
    var at := IndexOf(tasks, move.id);
    if at < |tasks| {
      var task := tasks[at];
      var moved := MovedTask(tasks, task, move.status, move.before, move.useDropPosition);
      var shown := SortTasks(Replace(tasks, moved));
      SortedReplaceKeepsIds(tasks, moved, id);
      SortedReplaceKeepsIds(shown, Record(task, moved, move.answer), id);
    }
  }

  lemma {:induction false} SortedReplaceKeepsIds(tasks: seq<Task>, task: Task, id: nat)
    ensures |Filter(HasId(id), SortTasks(Replace(tasks, task)))| == |Filter(HasId(id), tasks)|
  {
    LeIsOrder();
    FilterSort(Le, HasId(id), Replace(tasks, task));
    ReplaceKeepsIds(tasks, task, id);
  }

  // ---- The component ----

  /** The component state that `moveTask` reads and replaces. */
  class TaskList {
    var tasks: seq<Task>
    var movingTaskId: Option<nat>

    constructor (initial: seq<Task>)
      ensures tasks == initial && movingTaskId == None
    {
      tasks := initial;
      movingTaskId := None;
    }

    /** The part of `moveTask` before the request. `sent` tells whether a request goes out. */
    method BeginMove(task: Task, status: nat, before: Option<nat>, useDropPosition: bool) returns (sent: Option<Task>)
      requires task in tasks
      modifies this
      ensures old(movingTaskId).Some? ==> sent == None && tasks == old(tasks) && movingTaskId == old(movingTaskId)
      ensures old(movingTaskId) == None ==>
        tasks == MoveResult(old(tasks), task, status, before, useDropPosition)
      ensures old(movingTaskId) == None ==>
        movingTaskId == (if sent.Some? then Some(task.id) else None)
      ensures old(movingTaskId) == None ==>
        sent == if StaysPut(old(tasks), task, status, TargetOf(old(tasks), task, status, before, useDropPosition))
          then None
          else Some(MovedTask(old(tasks), task, status, before, useDropPosition))
    {
      if movingTaskId.Some? {
        return None;
      }
      var column := TargetColumn(task, status);
      var destination := Filter(InBut(column, task.id), tasks);
      var statusChanged := task.column.status != status;
      var targetIndex :=
        if statusChanged && !useDropPosition then 0
        else if before.Some? then IndexOf(destination, before.value)
        else |destination|;
      var desiredOrder := destination[..targetIndex] + [task] + destination[targetIndex..];
      var currentOrder := Filter(In(column), tasks);
      if task.column.status == status && SameIds(currentOrder, desiredOrder) {
        return None;
      }
      var moved := task.(column := column, sortOrder := SortOrderAt(destination, targetIndex));
      movingTaskId := Some(task.id);
      tasks := SortTasks(Replace(tasks, moved));
      sent := Some(moved);
    }

    /** The answer of the request, the server's record or the old one when the request failed: on a board that shows a
        task with its id the record comes to stand where its sort order puts it and all other tasks keep their order; a
        record that names the place of the shown one takes exactly that place. */
    method EndMove(record: Task)
      modifies this
      ensures movingTaskId == None && tasks == SortTasks(Replace(old(tasks), record))
      ensures Board(old(tasks)) ==> forall shown, column | shown in old(tasks) && shown.id == record.id ::
        Placed(old(tasks), record, column, ColumnOf(tasks, column))
      ensures Board(old(tasks)) ==> forall shown, column | shown in old(tasks) && SamePlace(shown, record) ::
        ColumnOf(tasks, column) == Replace(ColumnOf(old(tasks), column), record)
    {
      ghost var before := tasks;
      tasks := SortTasks(Replace(tasks, record));
      movingTaskId := None;
      if Board(before) {
        forall shown, column | shown in before && shown.id == record.id
          ensures Placed(before, record, column, ColumnOf(tasks, column))
        {
          AnswerPlaced(before, shown, record, column);
        }
        forall shown, column | shown in before && SamePlace(shown, record)
          ensures ColumnOf(tasks, column) == Replace(ColumnOf(before, column), record)
        {
          ConfirmKeepsPlaces(before, shown, record, column);
        }
      }
    }

    /** A whole move against a server that stores what it accepts. */
    method Move(move: Move)
      requires movingTaskId == None
      modifies this
      ensures tasks == Settled(old(tasks), move) && movingTaskId == None
    {
      var at := IndexOf(tasks, move.id);
      if at == |tasks| {
        return;
      }
      var task := tasks[at];
      var sent := BeginMove(task, move.status, move.before, move.useDropPosition);
      if sent.Some? {
        EndMove(Record(task, sent.value, move.answer));
      }
    }
  }
}
