/** What every reachable state of the launcher satisfies, and that every step keeps it. */
module LauncherInvariant {
  import opened Common
  import opened Launcher

  // ---- Generations ----

  // The last value of the generation counter that this leader is known by: its own, or its recovery token.
  function Mark(l: Leader): nat {
    l.generation + if l.claimed then 1 else 0
  }

  // Start generations and recovery tokens are all different: each was the value of the counter at another time.
  ghost predicate GenerationsFit(leaders: seq<Leader>, generation: nat) {
    && (forall i, j | 0 <= i < j < |leaders| :: Mark(leaders[i]) < leaders[j].generation)
    && (forall i | 0 <= i < |leaders| :: Mark(leaders[i]) <= generation)
  }

  // The counter has been bumped since anything happened to a leader.
  ghost predicate Fresh(leaders: seq<Leader>, generation: nat) {
    forall i | 0 <= i < |leaders| :: Mark(leaders[i]) < generation
  }

  ghost predicate WatchersFit(leaders: seq<Leader>) {
    forall i | 0 <= i < |leaders| :: WatcherFits(leaders[i])
  }

  predicate WatcherFits(l: Leader) {
    match l.watcher
    case NotSpawned => !l.claimed && !l.signalling
    case Waiting => !l.claimed
    case Reaped => !l.claimed && !l.alive
    case Finished => !l.alive
    case _ => l.claimed && !l.alive
  }

  // ---- The child slot ----

  ghost predicate NoneAlive(leaders: seq<Leader>) {
    forall i | 0 <= i < |leaders| :: !leaders[i].alive
  }

  ghost predicate OnlyLastAlive(leaders: seq<Leader>) {
    forall i | 0 <= i < |leaders| - 1 :: !leaders[i].alive
  }

  ghost predicate NoChild(child: Option<Pid>, leaders: seq<Leader>) {
    child.None? && NoneAlive(leaders)
  }

  predicate NamesLast(child: Option<Pid>, leaders: seq<Leader>) {
    leaders != [] && child == Some(leaders[|leaders| - 1].pid)
  }

  // The slot is empty, or names the last leader, whose generation is current and whose watcher has not looked yet.
  ghost predicate Settled(child: Option<Pid>, leaders: seq<Leader>, generation: nat) {
    OnlyLastAlive(leaders) &&
    if child.None? then NoneAlive(leaders)
    else
      && NamesLast(child, leaders)
      && leaders[|leaders| - 1].generation == generation
      && (leaders[|leaders| - 1].watcher == Waiting || leaders[|leaders| - 1].watcher == Reaped)
  }

  // The stop in progress has bumped the generation, so that no watcher can claim any more.
  ghost predicate Overtaken(child: Option<Pid>, leaders: seq<Leader>, generation: nat) {
    OnlyLastAlive(leaders) && Fresh(leaders, generation)
    && if child.None? then NoneAlive(leaders) else NamesLast(child, leaders)
  }

  // The start in progress has spawned the last leader.
  ghost predicate Spawning(child: Option<Pid>, leaders: seq<Leader>, generation: nat, filled: bool) {
    && OnlyLastAlive(leaders) && leaders != []
    && leaders[|leaders| - 1].generation == generation
    && leaders[|leaders| - 1].watcher == NotSpawned
    && if filled then NamesLast(child, leaders) else child.None?
  }

  ghost predicate StopFits(at: StopPoint, child: Option<Pid>, leaders: seq<Leader>, generation: nat) {
    match at
    case Bump => Settled(child, leaders, generation)
    case Flag => Overtaken(child, leaders, generation)
    case Empty => Overtaken(child, leaders, generation)
    case Note => NoChild(child, leaders)
  }

  ghost predicate StartFits(at: StartPoint, child: Option<Pid>, leaders: seq<Leader>, generation: nat) {
    match at
    case Check => Settled(child, leaders, generation)
    case Prepare => NoChild(child, leaders)
    case Advance => NoChild(child, leaders)
    case Unflag => NoChild(child, leaders) && Fresh(leaders, generation)
    case Announce => NoChild(child, leaders) && Fresh(leaders, generation)
    case Spawn => NoChild(child, leaders) && Fresh(leaders, generation)
    case Record => Spawning(child, leaders, generation, false)
    case Fill => Spawning(child, leaders, generation, false)
    case Show => Spawning(child, leaders, generation, true)
    case Watch => Spawning(child, leaders, generation, true)
  }

  ghost predicate SlotFits(lock: Lock, child: Option<Pid>, leaders: seq<Leader>, generation: nat) {
    if lock.Held? && lock.at.Stop? then StopFits(lock.at.stop, child, leaders, generation)
    else if lock.Held? && lock.at.Start? then StartFits(lock.at.start, child, leaders, generation)
    else Settled(child, leaders, generation)
  }

  // ---- The snapshot ----

  // The start in progress has cleared the signal pid and not yet shown the new child.
  predicate Unannounced(lock: Lock) {
    && lock.Held? && lock.at.Start?
    && (lock.at.start.Spawn? || lock.at.start.Record? || lock.at.start.Fill? || lock.at.start.Show?)
  }

  predicate SnapshotFits(lock: Lock, snapshot: Snapshot) {
    && (snapshot.openSignalPid.Some? ==> snapshot.childPid == snapshot.openSignalPid)
    && (Unannounced(lock) ==> snapshot.openSignalPid.None?)
  }

  // ---- Updates and the lock ----

  predicate Active(pc: Updater) {
    !pc.Arriving? && !pc.Gone?
  }

  // At most one update is under way, and then the flow flag is set.
  ghost predicate OneUpdate(updaters: seq<Updater>, flow: bool) {
    && (forall u, v | 0 <= u < |updaters| && 0 <= v < |updaters| && Active(updaters[u]) && Active(updaters[v]) ::
      u == v)
    && (forall u | 0 <= u < |updaters| && Active(updaters[u]) :: flow)
  }

  // The update flag is set from before the launcher is stopped until the update has failed or the app restarts.
  ghost predicate UpdatesFlagged(updaters: seq<Updater>, flag: bool, clearing: bool) {
    forall u | 0 <= u < |updaters| :: UpdateFlagged(updaters[u], flag, clearing)
  }

  predicate UpdateFlagged(pc: Updater, flag: bool, clearing: bool) {
    match pc
    case Downloading => flag
    case Stopping => flag
    case Installing => flag
    case Restarting => flag
    case Reinstating => flag || clearing
    case _ => true
  }

  // The failed update that holds the lock has just cleared the flag.
  predicate ClearingFlag(lock: Lock) {
    lock.Held? && lock.caller.UpdateRestart? && lock.at.Releasing?
  }

  // An update that has stopped the launcher and might start it again.
  ghost predicate Reversible(updaters: seq<Updater>) {
    exists u :: 0 <= u < |updaters| && (updaters[u] == Installing || updaters[u] == Reinstating)
  }

  predicate StopCaller(c: Caller) {
    c.QuitCall? || c.ExitCall? || c.FinalExitCall?
  }

  ghost predicate CallerFits(lock: Lock, leaders: seq<Leader>, updaters: seq<Updater>, closed: bool) {
    lock.Held? ==>
      match lock.caller
      case UpdateStop(u) => u < |updaters| && updaters[u] == Stopping
      case UpdateRestart(u) => u < |updaters| && updaters[u] == Reinstating
      case RecoveryCall(i) => i < |leaders| && leaders[i].watcher == Recovering
      case ExitCall(restarting) => restarting ==> Restarts(updaters)
      case FinalExitCall => closed
      case _ => true
  }

  predicate PointFits(lock: Lock) {
    lock.Held? ==>
      match lock.at
      case Stop(_) => StopCaller(lock.caller) || lock.caller.RestartCall? || lock.caller.UpdateStop?
      case Start(_) =>
        lock.caller.StartCall? || lock.caller.RestartCall? || lock.caller.UpdateRestart? || lock.caller.RecoveryCall?
      case Clearing(_) => lock.caller.UpdateRestart?
      case _ => true
  }

  predicate Done(at: Point) {
    at.Returned? || at.Releasing?
  }

  // While a quit or exit is under way no update can bring the launcher back, and in the end it is stopped.
  ghost predicate QuitFits(lock: Lock, updaters: seq<Updater>, intentional: bool, child: Option<Pid>,
        leaders: seq<Leader>) {
    lock.Held? && StopCaller(lock.caller) && !lock.at.Entered? ==>
      && !Reversible(updaters)
      && (Done(lock.at) || lock.at == Stop(Empty) || lock.at == Stop(Note) ==> intentional)
      && (Done(lock.at) ==> NoChild(child, leaders))
  }

  // ---- After a quit or an accepted exit ----

  ghost predicate ClosedFits(closed: bool, lock: Lock, updaters: seq<Updater>, intentional: bool, child: Option<Pid>,
                             leaders: seq<Leader>) {
    closed ==>
      && intentional && NoChild(child, leaders) && !Reversible(updaters)
      && (lock.Held? ==> lock.at.Entered? || StopCaller(lock.caller))
  }

  ghost predicate Inv(s: State) {
    && GenerationsFit(s.leaders, s.generation)
    && WatchersFit(s.leaders)
    && SlotFits(s.lock, s.child, s.leaders, s.generation)
    && SnapshotFits(s.lock, s.snapshot)
    && OneUpdate(s.updaters, s.flowInProgress)
    && UpdatesFlagged(s.updaters, s.updateInProgress, ClearingFlag(s.lock))
    && CallerFits(s.lock, s.leaders, s.updaters, s.closed)
    && PointFits(s.lock)
    && QuitFits(s.lock, s.updaters, s.intentionalStop, s.child, s.leaders)
    && ClosedFits(s.closed, s.lock, s.updaters, s.intentionalStop, s.child, s.leaders)
    && (s.exitAccepted ==> s.closed)
  }

  lemma InitialInv()
    ensures Inv(INITIAL)
  {
  }

  lemma KeepsAcquire(s: State, c: Caller)
    requires Inv(s) && MayAcquire(s, c)
    ensures Inv(Take(s, c))
  {
    if c.RecoveryCall? {
      SleepingIsClaimed(s.leaders, c.leader);
      KeepsFreeWatcher(s, c.leader, Recovering);
      KeepsTaken(WithWatcher(s, c.leader, Recovering), c);
    } else {
      KeepsTaken(s, c);
    }
  }

  lemma SleepingIsClaimed(leaders: seq<Leader>, i: nat)
    requires WatchersFit(leaders) && i < |leaders| && leaders[i].watcher == Sleeping
    ensures leaders[i].claimed && !leaders[i].alive
  {
    assert WatcherFits(leaders[i]);
  }

  lemma KeepsTaken(s: State, c: Caller)
    requires Inv(s) && s.lock.Free? && (c.FinalExitCall? ==> s.exitAccepted)
    requires c.FinalExitCall? || CallerFits(Held(c, Entered), s.leaders, s.updaters, s.closed)
    ensures Inv(s.(lock := Held(c, Entered)))
  {
  }

  /** Changing a leader without changing what it is known by, and without reviving it. */
  lemma LeaderKept(leaders: seq<Leader>, i: nat, l: Leader)
    requires i < |leaders| && WatcherFits(l)
    requires l.generation == leaders[i].generation && l.claimed == leaders[i].claimed && l.pid == leaders[i].pid
    requires l.alive ==> leaders[i].alive
    ensures forall g :: GenerationsFit(leaders, g) ==> GenerationsFit(leaders[i := l], g)
    ensures forall g :: Fresh(leaders, g) ==> Fresh(leaders[i := l], g)
    ensures WatchersFit(leaders) ==> WatchersFit(leaders[i := l])
    ensures NoneAlive(leaders) ==> NoneAlive(leaders[i := l])
    ensures OnlyLastAlive(leaders) ==> OnlyLastAlive(leaders[i := l])
    ensures forall child :: NamesLast(child, leaders) ==> NamesLast(child, leaders[i := l])
  {
  }

  /** A watcher that has not claimed its exit only moves from waiting to having seen it: the slot stays right. */
  lemma SlotKept(lock: Lock, child: Option<Pid>, leaders: seq<Leader>, generation: nat, i: nat, l: Leader)
    requires SlotFits(lock, child, leaders, generation) && i < |leaders| && WatcherFits(leaders[i])
    requires l.generation == leaders[i].generation && l.claimed == leaders[i].claimed && l.pid == leaders[i].pid
    requires l.alive ==> leaders[i].alive
    requires l.watcher == leaders[i].watcher || l.claimed || (leaders[i].watcher == Waiting && l.watcher == Reaped)
    ensures SlotFits(lock, child, leaders[i := l], generation)
  {
  }

  lemma KeepsLeader(s: State, i: nat, l: Leader)
    requires Inv(s) && i < |s.leaders| && WatcherFits(l)
    requires var m := s.leaders[i]; l.generation == m.generation && l.claimed == m.claimed && l.pid == m.pid
    requires l.alive ==> s.leaders[i].alive
    requires l.watcher == s.leaders[i].watcher || s.leaders[i].watcher != Recovering || s.lock.Free?
    requires SlotFits(s.lock, s.child, s.leaders[i := l], s.generation)
    ensures Inv(s.(leaders := s.leaders[i := l]))
  {
    LeaderKept(s.leaders, i, l);
  }

  lemma KeepsGiveUpUpdate(s: State)
    requires Inv(s) && s.lock.Held? && s.lock.at.Entered? && s.lock.caller.UpdateStop?
    ensures CallerExists(s, s.lock.caller) && Inv(GiveUp(s))
  {
  }

  lemma KeepsGiveUpRecovery(s: State)
    requires Inv(s) && s.lock.Held? && s.lock.at.Entered? && s.lock.caller.RecoveryCall?
    ensures CallerExists(s, s.lock.caller) && Inv(GiveUp(s))
  {
    KeepsEntryFree(s);
    KeepsFreeWatcher(s.(lock := Free), s.lock.caller.leader, Finished);
  }

  // Whoever has only entered can go.
  lemma KeepsEntryFree(s: State)
    requires Inv(s) && s.lock.Held? && s.lock.at.Entered?
    ensures Inv(s.(lock := Free))
  {
  }

  lemma KeepsFreeWatcher(s: State, i: nat, w: Watcher)
    requires Inv(s) && s.lock.Free? && i < |s.leaders| && s.leaders[i].claimed
    requires WatcherFits(s.leaders[i].(watcher := w))
    ensures Inv(WithWatcher(s, i, w))
  {
    assert WatcherFits(s.leaders[i]);
    SlotKept(s.lock, s.child, s.leaders, s.generation, i, s.leaders[i].(watcher := w));
    KeepsLeader(s, i, s.leaders[i].(watcher := w));
  }

  lemma KeepsGiveUp(s: State)
    requires Inv(s) && s.lock.Held? && s.lock.at.Entered?
    requires !s.lock.caller.RecoveryCall? && !s.lock.caller.UpdateStop?
    ensures CallerExists(s, s.lock.caller) && Inv(GiveUp(s))
  {
  }

  lemma KeepsStopBump(s: State)
    requires Inv(s) && s.lock.Held? && s.lock.at == Stop(Bump)
    ensures Inv(AdvanceStop(s, Bump))
  {
  }

  lemma KeepsStopFlag(s: State)
    requires Inv(s) && s.lock.Held? && s.lock.at == Stop(Flag)
    ensures Inv(AdvanceStop(s, Flag))
  {
  }

  lemma KeepsStopNote(s: State)
    requires Inv(s) && s.lock.Held? && s.lock.at == Stop(Note)
    ensures Inv(AdvanceStop(s, Note))
  {
  }

  lemma KeepsStopEmpty(s: State)
    requires Inv(s) && s.lock.Held? && s.lock.at == Stop(Empty)
    ensures Inv(AdvanceStop(s, Empty))
  {
    var t := AdvanceStop(s, Empty);
    if s.child.Some? {
      KilledFits(s.child, s.leaders, s.generation);
    }
  }

  /** Killing the process in the slot leaves no leader alive. */
  lemma KilledFits(child: Option<Pid>, leaders: seq<Leader>, generation: nat)
    requires child.Some? && Overtaken(child, leaders, generation)
    ensures NoneAlive(Killed(leaders, child.value))
    ensures GenerationsFit(leaders, generation) ==> GenerationsFit(Killed(leaders, child.value), generation)
    ensures WatchersFit(leaders) ==> WatchersFit(Killed(leaders, child.value))
  {
  }

  lemma KeepsStartCheck(s: State, choice: Choice)
    requires Inv(s) && s.lock.Held? && s.lock.at == Start(Check)
    ensures CanAdvance(s) && Inv(AdvanceStart(s, Check, choice))
  {
  }

  lemma KeepsStartPrepare(s: State, choice: Choice)
    requires Inv(s) && s.lock.Held? && s.lock.at == Start(Prepare)
    ensures CanAdvance(s) && Inv(AdvanceStart(s, Prepare, choice))
  {
    match choice
    case Fail => KeepsEarlyReturn(s, false);
    case Decline =>
      var snapshot := s.snapshot.(phase := Stopped, openSignalPid := None, openRequestPending := false);
      KeepsSnapshot(s, snapshot, s.openers, s.restartErrors, s.startErrors);
      KeepsEarlyReturn(s.(snapshot := snapshot), true);
    case _ => KeepsPrepared(s);
  }

  // Nothing has been spawned yet, or nothing could be.
  lemma KeepsEarlyReturn(s: State, ok: bool)
    requires Inv(s) && s.lock.Held? && (s.lock.at == Start(Prepare) || s.lock.at == Start(Spawn))
    ensures CanAdvance(s) && Inv(Go(s, Returned(ok)))
  {
  }

  lemma KeepsPrepared(s: State)
    requires Inv(s) && s.lock.Held? && s.lock.at == Start(Prepare)
    ensures CanAdvance(s) && Inv(Go(s, Start(Advance)))
  {
  }

  lemma KeepsStartAdvance(s: State, choice: Choice)
    requires Inv(s) && s.lock.Held? && s.lock.at == Start(Advance)
    ensures CanAdvance(s) && Inv(AdvanceStart(s, Advance, choice))
  {
  }

  lemma KeepsStartUnflag(s: State, choice: Choice)
    requires Inv(s) && s.lock.Held? && s.lock.at == Start(Unflag)
    ensures CanAdvance(s) && Inv(AdvanceStart(s, Unflag, choice))
  {
  }

  lemma KeepsStartAnnounce(s: State, choice: Choice)
    requires Inv(s) && s.lock.Held? && s.lock.at == Start(Announce)
    ensures CanAdvance(s) && Inv(AdvanceStart(s, Announce, choice))
  {
  }

  lemma KeepsStartSpawn(s: State, choice: Choice)
    requires Inv(s) && s.lock.Held? && s.lock.at == Start(Spawn)
    ensures CanAdvance(s) && Inv(AdvanceStart(s, Spawn, choice))
  {
    if choice.Spawned? {
      KeepsSpawned(s, choice.pid);
    } else {
      KeepsEarlyReturn(s, false);
    }
  }

  lemma KeepsSpawned(s: State, pid: Pid)
    requires Inv(s) && s.lock.Held? && s.lock.at == Start(Spawn)
    ensures CanAdvance(s) && Inv(AdvanceStart(s, Spawn, Spawned(pid)))
  {
    LeaderAdded(s.child, s.leaders, s.generation, pid);
    KeepsAdded(s, s.leaders + [Leader(pid, s.generation, true, NotSpawned, false, false)]);
  }

  lemma KeepsAdded(s: State, more: seq<Leader>)
    requires Inv(s) && s.lock.Held? && s.lock.at == Start(Spawn)
    requires GenerationsFit(more, s.generation) && WatchersFit(more) && Spawning(s.child, more, s.generation, false)
    requires s.leaders <= more
    ensures Inv(s.(lock := Held(s.lock.caller, Start(Record)), leaders := more))
  {
  }

  // A new leader of the current generation, which no earlier one has.
  lemma LeaderAdded(child: Option<Pid>, leaders: seq<Leader>, generation: nat, pid: Pid)
    requires StartFits(Spawn, child, leaders, generation)
    requires GenerationsFit(leaders, generation) && WatchersFit(leaders)
    ensures var more := leaders + [Leader(pid, generation, true, NotSpawned, false, false)];
      GenerationsFit(more, generation) && WatchersFit(more) && StartFits(Record, child, more, generation)
  {
  }

  lemma KeepsStartRecord(s: State, choice: Choice)
    requires Inv(s) && s.lock.Held? && s.lock.at == Start(Record)
    ensures CanAdvance(s) && Inv(AdvanceStart(s, Record, choice))
  {
    if choice.Fail? {
      KeepsUnrecorded(s);
    } else {
      KeepsRecorded(s);
    }
  }

  lemma KeepsRecorded(s: State)
    requires Inv(s) && s.lock.Held? && s.lock.at == Start(Record)
    ensures CanAdvance(s) && Inv(Go(s, Start(Fill)))
  {
  }

  lemma KeepsUnrecorded(s: State)
    requires Inv(s) && s.lock.Held? && s.lock.at == Start(Record)
    ensures CanAdvance(s) && Inv(AdvanceStart(s, Record, Fail))
  {
    var last := |s.leaders| - 1;
    UnrecordedFits(s.child, s.leaders, s.generation);
    KeepsReturn(s, s.leaders[last := s.leaders[last].(alive := false)], false);
    CallerIsThere(s);
    UnrecordedDoes(s);
  }

  lemma UnrecordedDoes(s: State)
    requires s.lock.Held? && s.leaders != []
    ensures var last := |s.leaders| - 1;
      AdvanceStart(s, Record, Fail)
      == s.(lock := Held(s.lock.caller, Returned(false)),
            leaders := s.leaders[last := s.leaders[last].(alive := false)])
  {
  }

  // The start is over, and its leader is in the slot or gone.
  lemma KeepsReturn(s: State, next: seq<Leader>, ok: bool)
    requires Inv(s) && s.lock.Held? && s.lock.at.Start? && |next| == |s.leaders|
    requires GenerationsFit(next, s.generation) && WatchersFit(next) && Settled(s.child, next, s.generation)
    requires forall i | 0 <= i < |next| && s.leaders[i].watcher == Recovering :: next[i].watcher == Recovering
    ensures Inv(s.(lock := Held(s.lock.caller, Returned(ok)), leaders := next))
  {
  }

  // The process that could not be recorded has been killed.
  lemma UnrecordedFits(child: Option<Pid>, leaders: seq<Leader>, generation: nat)
    requires Spawning(child, leaders, generation, false)
    requires GenerationsFit(leaders, generation) && WatchersFit(leaders)
    ensures var last := |leaders| - 1;
      var next := leaders[last := leaders[last].(alive := false)];
      Settled(child, next, generation) && GenerationsFit(next, generation) && WatchersFit(next)
  {
    var last := |leaders| - 1;
    LeaderKept(leaders, last, leaders[last].(alive := false));
    assert NoneAlive(leaders[last := leaders[last].(alive := false)]);
  }

  lemma KeepsStartFill(s: State, choice: Choice)
    requires Inv(s) && s.lock.Held? && s.lock.at == Start(Fill)
    ensures CanAdvance(s) && Inv(AdvanceStart(s, Fill, choice))
  {
  }

  lemma KeepsStartShow(s: State, choice: Choice)
    requires Inv(s) && s.lock.Held? && s.lock.at == Start(Show)
    ensures CanAdvance(s) && Inv(AdvanceStart(s, Show, choice))
  {
  }

  lemma KeepsStartWatch(s: State, choice: Choice)
    requires Inv(s) && s.lock.Held? && s.lock.at == Start(Watch)
    ensures CanAdvance(s) && Inv(AdvanceStart(s, Watch, choice))
  {
    var last := |s.leaders| - 1;
    WatchFits(s.child, s.leaders, s.generation);
    KeepsReturn(s, s.leaders[last := s.leaders[last].(watcher := Waiting)], true);
    CallerIsThere(s);
    WatchDoes(s, choice);
  }

  lemma WatchDoes(s: State, choice: Choice)
    requires s.lock.Held? && s.leaders != []
    ensures var last := |s.leaders| - 1;
      AdvanceStart(s, Watch, choice)
      == s.(lock := Held(s.lock.caller, Returned(true)),
            leaders := s.leaders[last := s.leaders[last].(watcher := Waiting)])
  {
  }

  // The leader in the slot is watched.
  lemma WatchFits(child: Option<Pid>, leaders: seq<Leader>, generation: nat)
    requires Spawning(child, leaders, generation, true)
    requires GenerationsFit(leaders, generation) && WatchersFit(leaders)
    ensures var last := |leaders| - 1;
      var next := leaders[last := leaders[last].(watcher := Waiting)];
      Settled(child, next, generation) && GenerationsFit(next, generation) && WatchersFit(next)
  {
    var last := |leaders| - 1;
    assert WatcherFits(leaders[last]);
    LeaderKept(leaders, last, leaders[last].(watcher := Waiting));
  }

  lemma KeepsAfterReturn(s: State, ok: bool)
    requires Inv(s) && s.lock.Held? && s.lock.at == Returned(ok)
    ensures Inv(AfterReturn(s, ok))
  {
    match s.lock.caller
    case RestartCall => KeepsUnflagged(s, Releasing(ok));
    case UpdateRestart(_) => KeepsUnflagged(s, Clearing(ok));
    case _ => KeepsReturned(s, ok);
  }

  lemma KeepsUnflagged(s: State, at: Point)
    requires Inv(s) && s.lock.Held? && s.lock.at.Returned?
    requires (s.lock.caller.RestartCall? && at.Releasing?) || (s.lock.caller.UpdateRestart? && at.Clearing?)
    ensures Inv(Go(s.(intentionalStop := false), at))
  {
  }

  lemma KeepsReturned(s: State, ok: bool)
    requires Inv(s) && s.lock.Held? && s.lock.at == Returned(ok) && !s.lock.caller.UpdateRestart?
    ensures Inv(Go(s, Releasing(ok)))
  {
  }

  lemma KeepsClearing(s: State, ok: bool)
    requires Inv(s) && s.lock.Held? && s.lock.at == Clearing(ok)
    ensures Inv(Go(s.(updateInProgress := false), Releasing(ok)))
  {
  }

  lemma KeepsRelease(s: State, ok: bool)
    requires Inv(s) && s.lock.Held? && s.lock.at == Releasing(ok)
    requires !s.lock.caller.UpdateStop? && !s.lock.caller.UpdateRestart? && !s.lock.caller.RecoveryCall?
    ensures Inv(Release(s, ok))
  {
    if StopCaller(s.lock.caller) {
      KeepsReleaseStop(s, ok);
    } else {
      var t := Release(s, ok);
      KeepsReleaseStart(s, t.startErrors, t.restartErrors);
    }
  }

  lemma KeepsReleaseStop(s: State, ok: bool)
    requires Inv(s) && s.lock.Held? && s.lock.at == Releasing(ok) && StopCaller(s.lock.caller)
    ensures Inv(Release(s, ok))
  {
    var accepted := s.lock.caller.ExitCall? || s.exitAccepted;
    KeepsClose(s, accepted);
    assert Release(s, ok) == s.(lock := Free, closed := true, exitAccepted := accepted);
  }

  // A quit or exit is over.
  lemma KeepsClose(s: State, accepted: bool)
    requires Inv(s) && s.lock.Held? && s.lock.at.Releasing? && StopCaller(s.lock.caller)
    ensures Inv(s.(lock := Free, closed := true, exitAccepted := accepted))
  {
  }

  lemma KeepsReleaseStart(s: State, startErrors: nat, restartErrors: multiset<nat>)
    requires Inv(s) && s.lock.Held? && s.lock.at.Releasing?
    requires s.lock.caller.StartCall? || s.lock.caller.RestartCall?
    ensures Inv(s.(lock := Free, startErrors := startErrors, restartErrors := restartErrors))
  {
  }

  lemma KeepsReleaseUpdate(s: State, ok: bool)
    requires Inv(s) && s.lock.Held? && s.lock.at == Releasing(ok)
    requires s.lock.caller.UpdateStop? || s.lock.caller.UpdateRestart?
    ensures CallerExists(s, s.lock.caller) && Inv(Release(s, ok))
  {
  }

  lemma KeepsReleaseRecovery(s: State, ok: bool)
    requires Inv(s) && s.lock.Held? && s.lock.at == Releasing(ok) && s.lock.caller.RecoveryCall?
    ensures CallerExists(s, s.lock.caller) && Inv(Release(s, ok))
  {
    KeepsRecoveryFree(s);
    KeepsFreeWatcher(s.(lock := Free), s.lock.caller.leader, if ok then Finished else Failed(s.generation));
  }

  lemma KeepsRecoveryFree(s: State)
    requires Inv(s) && s.lock.Held? && s.lock.at.Releasing? && s.lock.caller.RecoveryCall?
    ensures Inv(s.(lock := Free))
  {
  }

  // ---- Steps of the other threads ----

  lemma KeepsDie(s: State, i: nat)
    requires Inv(s) && i < |s.leaders| && s.leaders[i].alive
    ensures Inv(s.(leaders := s.leaders[i := s.leaders[i].(alive := false)]))
  {
    var l := s.leaders[i].(alive := false);
    assert WatcherFits(s.leaders[i]);
    SlotKept(s.lock, s.child, s.leaders, s.generation, i, l);
    KeepsLeader(s, i, l);
  }

  lemma KeepsReap(s: State, i: nat)
    requires Inv(s) && Enabled(s, Reap(i))
    ensures Inv(WithWatcher(s, i, Reaped))
  {
    var l := s.leaders[i].(watcher := Reaped);
    assert WatcherFits(s.leaders[i]);
    SlotKept(s.lock, s.child, s.leaders, s.generation, i, l);
    KeepsLeader(s, i, l);
  }

  lemma KeepsWin(s: State, i: nat)
    requires Inv(s) && Enabled(s, Claim(i)) && Wins(s, i)
    ensures Inv(DoClaim(s, i))
  {
    var next := s.leaders[i := s.leaders[i].(watcher := Claimed, claimed := true)];
    assert WatcherFits(s.leaders[i]);
    WinIsSettled(s.lock, s.child, s.leaders, s.generation, i);
    WinKeepsLeaders(s.child, s.leaders, s.generation);
    WinEmptiesSlot(s, next);
    assert DoClaim(s, i) == s.(child := None, generation := s.generation + 1, leaders := next);
  }

  // Only the leader that the slot names can win, and nobody who has started or stopped it holds the lock.
  lemma WinIsSettled(lock: Lock, child: Option<Pid>, leaders: seq<Leader>, generation: nat, i: nat)
    requires SlotFits(lock, child, leaders, generation) && i < |leaders| && leaders[i].watcher == Reaped
    requires GenerationsFit(leaders, generation)
    requires child == Some(leaders[i].pid) && generation == leaders[i].generation
    ensures i == |leaders| - 1 && Settled(child, leaders, generation)
    ensures lock.Held? ==> lock.at == Stop(Bump) || lock.at == Start(Check) || (!lock.at.Stop? && !lock.at.Start?)
  {
    OnlyLastIsCurrent(leaders, generation);
  }

  lemma OnlyLastIsCurrent(leaders: seq<Leader>, generation: nat)
    requires GenerationsFit(leaders, generation)
    ensures forall i | 0 <= i < |leaders| - 1 :: Mark(leaders[i]) < generation
  {
    forall i | 0 <= i < |leaders| - 1 ensures Mark(leaders[i]) < generation {
      assert Mark(leaders[i]) < leaders[|leaders| - 1].generation <= Mark(leaders[|leaders| - 1]);
    }
  }

  lemma WinKeepsLeaders(child: Option<Pid>, leaders: seq<Leader>, generation: nat)
    requires leaders != [] && leaders[|leaders| - 1].watcher == Reaped && Settled(child, leaders, generation)
    requires GenerationsFit(leaders, generation) && WatchersFit(leaders)
    ensures var last := |leaders| - 1;
      var next := leaders[last := leaders[last].(watcher := Claimed, claimed := true)];
      NoneAlive(next) && WatchersFit(next) && GenerationsFit(next, generation + 1)
  {
    assert WatcherFits(leaders[|leaders| - 1]);
  }

  lemma WinEmptiesSlot(s: State, next: seq<Leader>)
    requires Inv(s) && s.child.Some? && |next| == |s.leaders|
    requires NoneAlive(next) && WatchersFit(next) && GenerationsFit(next, s.generation + 1)
    requires forall i | 0 <= i < |next| && s.leaders[i].watcher == Recovering :: next[i].watcher == Recovering
    requires s.lock.Held? ==>
      s.lock.at == Stop(Bump) || s.lock.at == Start(Check) || (!s.lock.at.Stop? && !s.lock.at.Start?)
    ensures Inv(s.(child := None, generation := s.generation + 1, leaders := next))
  {
  }

  lemma KeepsLoss(s: State, i: nat)
    requires Inv(s) && Enabled(s, Claim(i)) && !Wins(s, i)
    ensures Inv(DoClaim(s, i))
  {
    assert WatcherFits(s.leaders[i]);
    LossKeepsSlot(s.lock, s.child, s.leaders, s.generation, i);
    KeepsLeader(s, i, s.leaders[i].(watcher := Finished));
  }

  lemma LossKeepsSlot(lock: Lock, child: Option<Pid>, leaders: seq<Leader>, generation: nat, i: nat)
    requires SlotFits(lock, child, leaders, generation) && i < |leaders| && leaders[i].watcher == Reaped
    requires !(child == Some(leaders[i].pid) && generation == leaders[i].generation)
    requires !leaders[i].alive && !leaders[i].claimed
    ensures SlotFits(lock, child, leaders[i := leaders[i].(watcher := Finished)], generation)
  {
  }

  // A watcher that has claimed its exit moves on.
  lemma KeepsWatcher(s: State, i: nat, w: Watcher)
    requires Inv(s) && i < |s.leaders| && s.leaders[i].claimed && WatcherFits(s.leaders[i].(watcher := w))
    requires s.leaders[i].watcher != Recovering
    ensures Inv(WithWatcher(s, i, w))
  {
    var l := s.leaders[i].(watcher := w);
    assert WatcherFits(s.leaders[i]);
    SlotKept(s.lock, s.child, s.leaders, s.generation, i, l);
    KeepsLeader(s, i, l);
  }

  lemma KeepsSnapshot(s: State, snapshot: Snapshot, openers: nat, restartErrors: multiset<nat>, startErrors: nat)
    requires Inv(s) && SnapshotFits(s.lock, snapshot)
    ensures Inv(s.(snapshot := snapshot, openers := openers, restartErrors := restartErrors,
      startErrors := startErrors))
  {
  }

  lemma KeepsSignalling(s: State, i: nat, signalling: bool)
    requires Inv(s) && i < |s.leaders| && s.leaders[i].watcher != NotSpawned
    ensures Inv(s.(leaders := s.leaders[i := s.leaders[i].(signalling := signalling)]))
  {
    var l := s.leaders[i].(signalling := signalling);
    assert WatcherFits(s.leaders[i]);
    SlotKept(s.lock, s.child, s.leaders, s.generation, i, l);
    KeepsLeader(s, i, l);
  }

  // Before the new child is shown, no output thread belongs to the current generation.
  lemma StaleWhileUnannounced(s: State, i: nat)
    requires Inv(s) && Unannounced(s.lock) && i < |s.leaders| && s.leaders[i].watcher != NotSpawned
    ensures s.leaders[i].generation != s.generation
  {
    assert Mark(s.leaders[i]) <= s.generation;
    if s.lock.at.start.Record? || s.lock.at.start.Fill? || s.lock.at.start.Show? {
      assert i < |s.leaders| - 1;
      assert Mark(s.leaders[i]) < s.leaders[|s.leaders| - 1].generation;
    }
  }

  lemma OutputFits(s: State, i: nat)
    requires Inv(s) && i < |s.leaders| && s.leaders[i].watcher != NotSpawned && Current(s, i)
    ensures SnapshotFits(s.lock, s.snapshot.(openSignalPid := Some(s.leaders[i].pid)))
  {
    if Unannounced(s.lock) {
      StaleWhileUnannounced(s, i);
    }
  }

  lemma OutputKeepsSnapshot(s: State, i: nat, line: Line)
    requires Inv(s) && i < |s.leaders| && s.leaders[i].watcher != NotSpawned
    ensures SnapshotFits(s.lock, DoOutput(s, i, line).snapshot)
  {
    if Current(s, i) {
      OutputFits(s, i);
    }
  }

  lemma KeepsOutput(s: State, i: nat, line: Line)
    requires Inv(s) && i < |s.leaders| && s.leaders[i].watcher != NotSpawned
    ensures Inv(DoOutput(s, i, line))
  {
    var t := DoOutput(s, i, line);
    OutputKeepsSnapshot(s, i, line);
    KeepsSnapshot(s, t.snapshot, s.openers, s.restartErrors, s.startErrors);
    KeepsSignalling(s.(snapshot := t.snapshot), i, t.leaders[i].signalling);
  }

  /** The update under way is the only one that the update flag matters to. */
  lemma OthersIdle(updaters: seq<Updater>, flow: bool, u: nat, pc: Updater, flag: bool, clearing: bool)
    requires OneUpdate(updaters, flow) && u < |updaters| && Active(updaters[u])
    requires UpdateFlagged(pc, flag, clearing)
    ensures UpdatesFlagged(updaters[u := pc], flag, clearing)
  {
    var next := updaters[u := pc];
    forall v | 0 <= v < |next| ensures UpdateFlagged(next[v], flag, clearing) {
      assert v != u ==> next[v] == updaters[v] && !Active(updaters[v]);
    }
  }

  /** Updates move on without disturbing whoever holds the lock. */
  lemma UpdaterMoves(s: State, u: nat, pc: Updater)
    requires Inv(s) && u < |s.updaters|
    requires !s.updaters[u].Stopping? && !s.updaters[u].Reinstating? && !s.updaters[u].Restarting?
    requires !pc.Installing? && (pc.Reinstating? ==> s.updaters[u].Installing?)
    ensures CallerFits(s.lock, s.leaders, s.updaters[u := pc], s.closed)
    ensures Reversible(s.updaters[u := pc]) ==> Reversible(s.updaters)
  {
    var next := s.updaters[u := pc];
    if Restarts(s.updaters) {
      var v :| 0 <= v < |s.updaters| && s.updaters[v] == Restarting;
      assert next[v] == Restarting;
    }
    if Reversible(next) {
      var v :| 0 <= v < |next| && (next[v] == Installing || next[v] == Reinstating);
      assert s.updaters[v] == Installing || s.updaters[v] == Reinstating;
    }
  }

  lemma OneUpdateMoves(updaters: seq<Updater>, flow: bool, u: nat, pc: Updater, next: bool)
    requires OneUpdate(updaters, flow) && u < |updaters|
    requires Active(pc) ==> next && (Active(updaters[u]) || !flow)
    requires Active(updaters[u]) || flow == next || !flow
    ensures OneUpdate(updaters[u := pc], next)
  {
  }

  lemma KeepsUpdater(s: State, u: nat, pc: Updater, flag: bool, flow: bool)
    requires Inv(s) && u < |s.updaters|
    requires !s.updaters[u].Stopping? && !s.updaters[u].Reinstating? && !s.updaters[u].Restarting?
    requires !pc.Installing? && (pc.Reinstating? ==> s.updaters[u].Installing?)
    requires OneUpdate(s.updaters[u := pc], flow)
    requires UpdatesFlagged(s.updaters[u := pc], flag, ClearingFlag(s.lock))
    ensures Inv(WithUpdater(s.(updateInProgress := flag, flowInProgress := flow), u, pc))
  {
    UpdaterMoves(s, u, pc);
  }

  lemma KeepsUpdate(s: State, u: nat, choice: Choice)
    requires Inv(s) && u < |s.updaters|
    ensures Inv(DoUpdate(s, u, choice))
  {
    var before := s.updaters[u];
    if before.Stopping? || before.Reinstating? || before.Restarting? || before.Gone? {
      assert DoUpdate(s, u, choice).updaters == s.updaters;
    } else {
      KeepsProgress(s, u, choice);
    }
  }

  // An update that waits for nobody moves on.
  lemma KeepsProgress(s: State, u: nat, choice: Choice)
    requires Inv(s) && u < |s.updaters|
    requires var pc := s.updaters[u]; !pc.Stopping? && !pc.Reinstating? && !pc.Restarting? && !pc.Gone?
    ensures Inv(DoUpdate(s, u, choice))
  {
    var snapshot := UpdateSnapshot(s.snapshot, s.updaters[u]);
    KeepsSnapshot(s, snapshot, s.openers, s.restartErrors, s.startErrors);
    KeepsMoved(s.(snapshot := snapshot), u, choice);
  }

  lemma KeepsMoved(s: State, u: nat, choice: Choice)
    requires Inv(s) && u < |s.updaters|
    requires var pc := s.updaters[u]; !pc.Stopping? && !pc.Reinstating? && !pc.Restarting? && !pc.Gone?
    ensures var (pc, flag, flow) := NextUpdate(s.updaters[u], choice, s.updateInProgress, s.flowInProgress);
      Inv(s.(updaters := s.updaters[u := pc], updateInProgress := flag, flowInProgress := flow))
  {
    var (pc, flag, flow) := NextUpdate(s.updaters[u], choice, s.updateInProgress, s.flowInProgress);
    assert UpdateFlagged(s.updaters[u], s.updateInProgress, ClearingFlag(s.lock));
    OneUpdateMoves(s.updaters, s.flowInProgress, u, pc, flow);
    if Active(s.updaters[u]) {
      OthersIdle(s.updaters, s.flowInProgress, u, pc, flag, ClearingFlag(s.lock));
    }
    KeepsUpdater(s, u, pc, flag, flow);
  }

  lemma KeepsGo(s: State, at: Point)
    requires Inv(s) && s.lock.Held? && s.lock.at.Entered? && (at == Start(Check) || at == Stop(Bump))
    requires PointFits(Held(s.lock.caller, at)) && (s.closed ==> StopCaller(s.lock.caller))
    requires StopCaller(s.lock.caller) ==> !Reversible(s.updaters)
    ensures Inv(Go(s, at))
  {
  }

  // Whatever passes the checks at the start of its block may go on.
  lemma EntryIsSafe(s: State)
    requires Inv(s) && s.lock.Held? && s.lock.at.Entered? && Enter(s).lock.Held?
    ensures s.closed ==> StopCaller(s.lock.caller)
    ensures StopCaller(s.lock.caller) ==> !Reversible(s.updaters)
  {
    if StopCaller(s.lock.caller) {
      StopIsFinal(s);
    } else if s.closed {
      ClosedEntry(s);
    }
  }

  // Where the checks lead when they pass.
  function Entrance(c: Caller): Point {
    if StopCaller(c) || c.RestartCall? || c.UpdateStop? then Stop(Bump) else Start(Check)
  }

  lemma EntryGoes(s: State)
    requires s.lock.Held? && CallerExists(s, s.lock.caller) && Enter(s).lock.Held?
    ensures Enter(s) == Go(s, Entrance(s.lock.caller))
  {
  }

  lemma EntranceFits(c: Caller)
    ensures PointFits(Held(c, Entrance(c)))
  {
  }

  // After a quit only a quit or exit goes past its checks.
  lemma ClosedEntry(s: State)
    requires Inv(s) && s.lock.Held? && s.lock.at.Entered? && Enter(s).lock.Held? && s.closed
    ensures StopCaller(s.lock.caller)
  {
    NoneReversible(s.updaters);
  }

  lemma NoneReversible(updaters: seq<Updater>)
    requires !Reversible(updaters)
    ensures forall u | 0 <= u < |updaters| :: updaters[u] != Installing && updaters[u] != Reinstating
  {
  }

  // An exit that is not refused leaves no update that might start the launcher again.
  lemma StopIsFinal(s: State)
    requires Inv(s) && s.lock.Held? && s.lock.at.Entered? && Enter(s).lock.Held? && StopCaller(s.lock.caller)
    ensures !Reversible(s.updaters)
  {
    if s.lock.caller.ExitCall? && s.lock.caller.restarting {
      RestartingIsFinal(s.updaters, s.flowInProgress);
    } else if !s.lock.caller.FinalExitCall? {
      UnflaggedIsFinal(s.updaters);
    }
  }

  lemma UnflaggedIsFinal(updaters: seq<Updater>)
    requires UpdatesFlagged(updaters, false, false)
    ensures !Reversible(updaters)
  {
    forall u | 0 <= u < |updaters| ensures updaters[u] != Installing && updaters[u] != Reinstating {
      assert UpdateFlagged(updaters[u], false, false);
    }
  }

  /** An app that restarts after an installed update has no update left that could bring the launcher back. */
  lemma RestartingIsFinal(updaters: seq<Updater>, flow: bool)
    requires OneUpdate(updaters, flow) && Restarts(updaters)
    ensures !Reversible(updaters)
  {
    var v :| 0 <= v < |updaters| && updaters[v] == Restarting;
    forall u | 0 <= u < |updaters| ensures updaters[u] != Installing && updaters[u] != Reinstating {
      assert Active(updaters[u]) && Active(updaters[v]) ==> u == v;
    }
  }

  lemma KeepsAnyGiveUp(s: State)
    requires Inv(s) && s.lock.Held? && s.lock.at.Entered?
    ensures CallerExists(s, s.lock.caller) && Inv(GiveUp(s))
  {
    match s.lock.caller
    case UpdateStop(_) => KeepsGiveUpUpdate(s);
    case RecoveryCall(_) => KeepsGiveUpRecovery(s);
    case _ => KeepsGiveUp(s);
  }

  lemma EnterCases(s: State)
    requires s.lock.Held? && CallerExists(s, s.lock.caller)
    ensures Enter(s) == GiveUp(s) || Enter(s) == Go(s, Start(Check)) || Enter(s) == Go(s, Stop(Bump))
  {
  }

  lemma KeepsEnter(s: State)
    requires Inv(s) && s.lock.Held? && s.lock.at.Entered?
    ensures CallerExists(s, s.lock.caller) && Inv(Enter(s))
  {
    CallerIsThere(s);
    EnterCases(s);
    if Enter(s).lock.Held? {
      KeepsPassed(s);
    } else {
      KeepsAnyGiveUp(s);
    }
  }

  lemma CallerIsThere(s: State)
    requires s.lock.Held? && CallerFits(s.lock, s.leaders, s.updaters, s.closed)
    ensures CallerExists(s, s.lock.caller)
  {
  }

  lemma KeepsPassed(s: State)
    requires Inv(s) && s.lock.Held? && s.lock.at.Entered? && CallerExists(s, s.lock.caller) && Enter(s).lock.Held?
    ensures Inv(Enter(s))
  {
    EntryGoes(s);
    EntryIsSafe(s);
    EntranceFits(s.lock.caller);
    KeepsGo(s, Entrance(s.lock.caller));
  }

  lemma KeepsAdvance(s: State, choice: Choice)
    requires Inv(s) && CanAdvance(s)
    ensures Inv(AdvanceLock(s, choice))
  {
    match s.lock.at
    case Entered => KeepsEnter(s);
    case Stop(at) => KeepsStop(s, at);
    case Start(at) => KeepsStart(s, at, choice);
    case Returned(ok) => KeepsAfterReturn(s, ok);
    case Clearing(ok) => KeepsClearing(s, ok);
    case Releasing(ok) => KeepsReleasing(s, ok);
  }

  lemma KeepsReleasing(s: State, ok: bool)
    requires Inv(s) && s.lock.Held? && s.lock.at == Releasing(ok)
    ensures CallerExists(s, s.lock.caller) && Inv(Release(s, ok))
  {
    match s.lock.caller
    case UpdateStop(_) => KeepsReleaseUpdate(s, ok);
    case UpdateRestart(_) => KeepsReleaseUpdate(s, ok);
    case RecoveryCall(_) => KeepsReleaseRecovery(s, ok);
    case _ => KeepsRelease(s, ok);
  }

  lemma KeepsStop(s: State, at: StopPoint)
    requires Inv(s) && s.lock.Held? && s.lock.at == Stop(at)
    ensures Inv(AdvanceStop(s, at))
  {
    match at
    case Bump => KeepsStopBump(s);
    case Flag => KeepsStopFlag(s);
    case Empty => KeepsStopEmpty(s);
    case Note => KeepsStopNote(s);
  }

  lemma KeepsStart(s: State, at: StartPoint, choice: Choice)
    requires Inv(s) && s.lock.Held? && s.lock.at == Start(at)
    ensures CanAdvance(s) && Inv(AdvanceStart(s, at, choice))
  {
    match at
    case Check => KeepsStartCheck(s, choice);
    case Prepare => KeepsStartPrepare(s, choice);
    case Advance => KeepsStartAdvance(s, choice);
    case Unflag => KeepsStartUnflag(s, choice);
    case Announce => KeepsStartAnnounce(s, choice);
    case Spawn => KeepsStartSpawn(s, choice);
    case Record => KeepsStartRecord(s, choice);
    case Fill => KeepsStartFill(s, choice);
    case Show => KeepsStartShow(s, choice);
    case Watch => KeepsStartWatch(s, choice);
  }

  lemma NoteExitKeepsWatcher(s: State, i: nat, w: Watcher)
    requires Inv(s) && i < |s.leaders| && s.leaders[i].watcher.Noted? && (w == Finished || w == Sleeping)
    ensures Inv(WithWatcher(s, i, w))
  {
    assert WatcherFits(s.leaders[i]);
    KeepsWatcher(s, i, w);
  }

  lemma KeepsNoteExit(s: State, i: nat)
    requires Inv(s) && Enabled(s, NoteExit(i))
    ensures Inv(DoNoteExit(s, i))
  {
    var t := DoNoteExit(s, i);
    assert WatcherFits(s.leaders[i]);
    KeepsSnapshot(s, t.snapshot, s.openers, s.restartErrors, s.startErrors);
    NoteExitKeepsWatcher(s.(snapshot := t.snapshot), i, t.leaders[i].watcher);
  }

  // The steps of the exit watchers, and those of the output threads and of open requests.
  predicate WatcherStep(step: Step) {
    step.Die? || step.Reap? || step.Claim? || step.ReadIntentional? || step.NoteExit? || step.ShowRecoveryError?
  }

  predicate OutputStep(step: Step) {
    step.Output? || step.OutputSignal? || step.OpenRequest? || step.OpenSignal?
  }

  predicate ErrorStep(step: Step) {
    step.ShowRestartError? || step.ShowStartError?
  }

  lemma KeepsWatcherStep(s: State, step: Step)
    requires Inv(s) && Enabled(s, step) && WatcherStep(step)
    ensures Inv(Do(s, step))
  {
    match step
    case Die(i) => KeepsDie(s, i);
    case Reap(i) => KeepsReap(s, i);
    case Claim(i) => KeepsClaim(s, i);
    case ReadIntentional(i) => KeepsRead(s, i);
    case NoteExit(i) => KeepsNoteExit(s, i);
    case ShowRecoveryError(i) => KeepsRecoveryError(s, i);
  }

  lemma KeepsClaim(s: State, i: nat)
    requires Inv(s) && Enabled(s, Claim(i))
    ensures Inv(DoClaim(s, i))
  {
    if Wins(s, i) {
      KeepsWin(s, i);
    } else {
      KeepsLoss(s, i);
    }
  }

  lemma KeepsRead(s: State, i: nat)
    requires Inv(s) && Enabled(s, ReadIntentional(i))
    ensures Inv(WithWatcher(s, i, Noted(s.intentionalStop)))
  {
    assert WatcherFits(s.leaders[i]);
    KeepsWatcher(s, i, Noted(s.intentionalStop));
  }

  lemma KeepsOutputStep(s: State, step: Step)
    requires Inv(s) && Enabled(s, step) && OutputStep(step)
    ensures Inv(Do(s, step))
  {
    match step
    case Output(i, line) => KeepsOutput(s, i, line);
    case OutputSignal(i, delivered) => KeepsOutputSignal(s, i, delivered);
    case OpenRequest =>
      KeepsSnapshot(s, s.snapshot.(openRequestPending := true), s.openers + 1, s.restartErrors, s.startErrors);
    case OpenSignal(delivered) =>
      KeepsSnapshot(s, DoSignal(s.snapshot, delivered), s.openers - 1, s.restartErrors, s.startErrors);
  }

  lemma KeepsErrorStep(s: State, step: Step)
    requires Inv(s) && Enabled(s, step) && ErrorStep(step)
    ensures Inv(Do(s, step))
  {
    match step
    case ShowRestartError(g) =>
      KeepsSnapshot(s, ShowError(s.snapshot, s.generation == g), s.openers, s.restartErrors - multiset{g},
        s.startErrors);
    case ShowStartError =>
      KeepsSnapshot(s, s.snapshot.(phase := Error), s.openers, s.restartErrors, s.startErrors - 1);
  }

  /** Every step of every thread keeps the invariant. */
  lemma KeepsStep(s: State, step: Step)
    requires Inv(s) && Enabled(s, step)
    ensures Inv(Do(s, step))
  {
    if WatcherStep(step) {
      KeepsWatcherStep(s, step);
    } else if OutputStep(step) {
      KeepsOutputStep(s, step);
    } else if ErrorStep(step) {
      KeepsErrorStep(s, step);
    } else {
      match step
      case Acquire(c) => KeepsAcquire(s, c);
      case Proceeds(choice) => KeepsAdvance(s, choice);
      case Offer => KeepsOffer(s);
      case Update(u, choice) => KeepsUpdate(s, u, choice);
    }
  }

  lemma KeepsRecoveryError(s: State, i: nat)
    requires Inv(s) && Enabled(s, ShowRecoveryError(i))
    ensures Inv(Do(s, ShowRecoveryError(i)))
  {
    var snapshot := ShowError(s.snapshot, s.generation == s.leaders[i].watcher.generation);
    KeepsSnapshot(s, snapshot, s.openers, s.restartErrors, s.startErrors);
    KeepsWatcher(s.(snapshot := snapshot), i, Finished);
  }

  lemma KeepsOutputSignal(s: State, i: nat, delivered: bool)
    requires Inv(s) && Enabled(s, OutputSignal(i, delivered))
    ensures Inv(Do(s, OutputSignal(i, delivered)))
  {
    var snapshot := DoSignal(s.snapshot, delivered);
    KeepsSnapshot(s, snapshot, s.openers, s.restartErrors, s.startErrors);
    assert WatcherFits(s.leaders[i]);
    KeepsSignalling(s.(snapshot := snapshot), i, false);
  }

  lemma KeepsOffer(s: State)
    requires Inv(s)
    ensures Inv(s.(updaters := s.updaters + [Arriving]))
  {
    var next := s.updaters + [Arriving];
    if Restarts(s.updaters) {
      var v :| 0 <= v < |s.updaters| && s.updaters[v] == Restarting;
      assert next[v] == Restarting;
    }
  }

  /** The invariant holds throughout every run. */
  lemma {:induction false} RunInv(states: seq<State>, steps: seq<Step>, k: nat)
    requires IsRun(states, steps) && k < |states|
    ensures Inv(states[k])
  {
    if k == 0 {
      InitialInv();
    } else {
      RunInv(states, steps, k - 1);
      assert Follows(states, steps, k - 1);
      KeepsStep(states[k - 1], steps[k - 1]);
    }
  }
}
