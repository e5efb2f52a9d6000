/** What holds in every run of the launcher, whatever the interleaving. */
module LauncherSafety {
  import opened Common
  import opened Launcher
  import opened LauncherInvariant

  // ---- One leader, and its exit is picked up ----

  /** At most one leader process spawned by the app is alive, and when the lifecycle lock is free it is the one in
      the child slot. */
  lemma AtMostOneLeader(states: seq<State>, steps: seq<Step>, k: nat)
    requires IsRun(states, steps) && k < |states|
    ensures var leaders := states[k].leaders;
      forall i, j | 0 <= i < |leaders| && 0 <= j < |leaders| && leaders[i].alive && leaders[j].alive :: i == j
    ensures var leaders := states[k].leaders;
      states[k].lock.Free? ==>
        forall i | 0 <= i < |leaders| && leaders[i].alive :: states[k].child == Some(leaders[i].pid)
  {
    RunInv(states, steps, k);
    var s := states[k];
    assert OnlyLastAlive(s.leaders);
    forall i | 0 <= i < |s.leaders| && s.leaders[i].alive ensures i == |s.leaders| - 1 {
    }
  }

  /** When the lock is free and the slot is filled, it holds the last leader, its generation is current, and its watcher
      is still to look: so the watcher claims the exit and empties the slot. */
  lemma ExitIsPickedUp(states: seq<State>, steps: seq<Step>, k: nat) returns (i: nat)
    requires IsRun(states, steps) && k < |states| && states[k].lock.Free? && states[k].child.Some?
    ensures i < |states[k].leaders| && Wins(states[k], i)
    ensures states[k].leaders[i].watcher == Waiting || states[k].leaders[i].watcher == Reaped
    ensures DoClaim(states[k], i).child == None && DoClaim(states[k], i).leaders[i].watcher == Claimed
  {
    RunInv(states, steps, k);
    i := |states[k].leaders| - 1;
  }

  // A stop has bumped the generation and not emptied the slot yet.
  predicate Stopping(lock: Lock) {
    lock.Held? && (lock.at == Stop(Flag) || lock.at == Stop(Empty))
  }

  /** Whoever holds the lock, a watcher claims its leader's exit, empties the slot and bumps the generation exactly when
      the slot names that leader, the last one spawned, and no stop is between its bump and emptying the slot itself;
      otherwise it changes neither. */
  lemma ClaimWinsIffNotStopping(states: seq<State>, steps: seq<Step>, k: nat, i: nat)
    requires IsRun(states, steps) && k < |steps| && steps[k] == Claim(i)
    ensures i < |states[k].leaders| == |states[k + 1].leaders|
    ensures var s, t := states[k], states[k + 1];
      if i == |s.leaders| - 1 && s.child == Some(s.leaders[i].pid) && !Stopping(s.lock)
      then t.leaders[i].watcher == Claimed && t.child == None && t.generation == s.generation + 1
      else t.leaders[i].watcher == Finished && t.child == s.child && t.generation == s.generation
  {
    RunInv(states, steps, k);
    assert Follows(states, steps, k);
    WinsIffNotStopping(states[k], i);
  }

  lemma WinsIffNotStopping(s: State, i: nat)
    requires Inv(s) && i < |s.leaders| && s.leaders[i].watcher == Reaped
    ensures Wins(s, i) <==> i == |s.leaders| - 1 && s.child == Some(s.leaders[i].pid) && !Stopping(s.lock)
  {
    OnlyLastIsCurrent(s.leaders, s.generation);
    if i == |s.leaders| - 1 && s.child.Some? {
      SlotOfReaped(s.lock, s.child, s.leaders, s.generation);
    }
  }

  // While the last leader waits to be looked at, the slot is settled, or a stop is under way.
  lemma SlotOfReaped(lock: Lock, child: Option<Pid>, leaders: seq<Leader>, generation: nat)
    requires SlotFits(lock, child, leaders, generation) && leaders != [] && child.Some?
    requires leaders[|leaders| - 1].watcher == Reaped
    ensures leaders[|leaders| - 1].generation == generation <==> !Stopping(lock)
  {
  }

  // ---- What steps never do to a leader or to the generation ----

  predicate LeaderPersists(l: Leader, m: Leader) {
    && l.pid == m.pid && l.generation == m.generation
    && (l.claimed ==> m.claimed)
    && (m.alive ==> l.alive)
    && (l.watcher == Finished ==> m.watcher == Finished && m.claimed == l.claimed)
  }

  ghost predicate Persist(before: seq<Leader>, after: seq<Leader>) {
    |before| <= |after| && forall i | 0 <= i < |before| :: LeaderPersists(before[i], after[i])
  }

  lemma OnePersists(leaders: seq<Leader>, i: nat, l: Leader)
    requires i < |leaders| && LeaderPersists(leaders[i], l)
    ensures Persist(leaders, leaders[i := l])
  {
  }

  lemma PersistTrans(a: seq<Leader>, b: seq<Leader>, c: seq<Leader>)
    requires Persist(a, b) && Persist(b, c)
    ensures Persist(a, c)
  {
    forall i | 0 <= i < |a| ensures LeaderPersists(a[i], c[i]) {
      assert LeaderPersists(a[i], b[i]) && LeaderPersists(b[i], c[i]);
    }
  }

  lemma StopPersists(s: State, at: StopPoint)
    requires s.lock.Held?
    ensures Persist(s.leaders, AdvanceStop(s, at).leaders) && s.generation <= AdvanceStop(s, at).generation
  {
    SamePersists(s.leaders);
    if s.child.Some? {
      KilledPersist(s.leaders, s.child.value);
    }
    assert AdvanceStop(s, at).leaders
        == if at.Empty? && s.child.Some? then Killed(s.leaders, s.child.value) else s.leaders;
  }

  lemma SamePersists(leaders: seq<Leader>)
    ensures Persist(leaders, leaders)
  {
  }

  lemma KilledPersist(leaders: seq<Leader>, pid: Pid)
    ensures Persist(leaders, Killed(leaders, pid))
  {
  }

  lemma StartPersists(s: State, at: StartPoint, choice: Choice)
    requires s.lock.Held? && (HoldsLeader(Start(at)) ==> s.leaders != [])
    requires at.Watch? ==> s.leaders[|s.leaders| - 1].watcher == NotSpawned
    ensures Persist(s.leaders, AdvanceStart(s, at, choice).leaders)
    ensures s.generation <= AdvanceStart(s, at, choice).generation
  {
    if HoldsLeader(Start(at)) {
      var last := |s.leaders| - 1;
      OnePersists(s.leaders, last, s.leaders[last].(alive := false));
      if at.Watch? {
        OnePersists(s.leaders, last, s.leaders[last].(watcher := Waiting));
      }
    }
  }

  lemma GiveUpPersists(s: State)
    requires Inv(s) && CanAdvance(s)
    ensures Persist(s.leaders, GiveUp(s).leaders) && s.generation == GiveUp(s).generation
  {
    if s.lock.caller.RecoveryCall? {
      var i := s.lock.caller.leader;
      OnePersists(s.leaders, i, s.leaders[i].(watcher := Finished));
    }
  }

  lemma ReleasePersists(s: State, ok: bool)
    requires Inv(s) && CanAdvance(s)
    ensures Persist(s.leaders, Release(s, ok).leaders) && s.generation == Release(s, ok).generation
  {
    if s.lock.caller.RecoveryCall? {
      var i := s.lock.caller.leader;
      assert s.leaders[i].watcher == Recovering;
      OnePersists(s.leaders, i, s.leaders[i].(watcher := if ok then Finished else Failed(s.generation)));
    }
  }

  lemma EnterPersists(s: State)
    requires Inv(s) && CanAdvance(s)
    ensures Persist(s.leaders, Enter(s).leaders) && s.generation == Enter(s).generation
  {
    GiveUpPersists(s);
    EnterCases(s);
  }

  lemma AdvancePersists(s: State, choice: Choice)
    requires Inv(s) && CanAdvance(s)
    ensures Persist(s.leaders, AdvanceLock(s, choice).leaders) && s.generation <= AdvanceLock(s, choice).generation
  {
    match s.lock.at
    case Stop(at) => StopPersists(s, at);
    case Start(at) => StartOfPersists(s, at, choice);
    case Entered => EnterPersists(s);
    case Releasing(ok) => ReleasePersists(s, ok);
    case _ => SamePersists(s.leaders);
  }

  lemma StartOfPersists(s: State, at: StartPoint, choice: Choice)
    requires Inv(s) && CanAdvance(s) && s.lock.at == Start(at)
    ensures Persist(s.leaders, AdvanceStart(s, at, choice).leaders)
    ensures s.generation <= AdvanceStart(s, at, choice).generation
  {
    StartPersists(s, at, choice);
  }

  // Steps that touch one leader's watcher or process.
  predicate LeaderStep(step: Step) {
    step.Die? || step.Reap? || step.Claim? || step.ReadIntentional? || step.NoteExit? || step.ShowRecoveryError?
    || step.Output? || step.OutputSignal?
  }

  lemma LeaderStepPersists(s: State, step: Step)
    requires Enabled(s, step) && LeaderStep(step)
    ensures Persist(s.leaders, Do(s, step).leaders) && s.generation <= Do(s, step).generation
  {
    var t := Do(s, step);
    assert t.leaders == s.leaders[step.leader := t.leaders[step.leader]];
    OnePersists(s.leaders, step.leader, t.leaders[step.leader]);
  }

  lemma UpdatePersists(s: State, u: nat, choice: Choice)
    requires u < |s.updaters|
    ensures DoUpdate(s, u, choice).leaders == s.leaders && DoUpdate(s, u, choice).generation == s.generation
  {
  }

  lemma AcquirePersists(s: State, c: Caller)
    requires MayAcquire(s, c)
    ensures Persist(s.leaders, Take(s, c).leaders) && s.generation == Take(s, c).generation
  {
    if c.RecoveryCall? {
      OnePersists(s.leaders, c.leader, s.leaders[c.leader].(watcher := Recovering));
    }
  }

  /** Steps only add leaders and only raise the generation; a finished watcher stays finished. */
  lemma StepPersists(s: State, step: Step)
    requires Inv(s) && Enabled(s, step)
    ensures Persist(s.leaders, Do(s, step).leaders) && s.generation <= Do(s, step).generation
  {
    if LeaderStep(step) {
      LeaderStepPersists(s, step);
    } else {
      match step
      case Proceeds(choice) => AdvancePersists(s, choice);
      case Acquire(c) => AcquirePersists(s, c);
      case Update(u, choice) => UpdatePersists(s, u, choice);
      case _ =>
    }
  }

  lemma {:induction false} RunPersists(states: seq<State>, steps: seq<Step>, k: nat, m: nat)
    requires IsRun(states, steps) && k <= m < |states|
    ensures Persist(states[k].leaders, states[m].leaders) && states[k].generation <= states[m].generation
    decreases m
  {
    if k < m {
      RunPersists(states, steps, k, m - 1);
      RunStepPersists(states, steps, m - 1);
      PersistTrans(states[k].leaders, states[m - 1].leaders, states[m].leaders);
    }
  }

  lemma RunStepPersists(states: seq<State>, steps: seq<Step>, k: nat)
    requires IsRun(states, steps) && k < |steps|
    ensures Persist(states[k].leaders, states[k + 1].leaders) && states[k].generation <= states[k + 1].generation
  {
    RunInv(states, steps, k);
    assert Follows(states, steps, k);
    StepPersists(states[k], steps[k]);
  }

  // ---- Superseded watchers and recovery tokens ----

  /** Once a newer leader has been spawned or the generation has moved on, a leader's watcher cannot touch the child
      slot or the generation, even if the pids are equal; it finishes without a token, and stays so: it never asks to
      restart the launcher. */
  lemma SupersededWatcherIsHarmless(states: seq<State>, steps: seq<Step>, k: nat, m: nat, i: nat)
    requires IsRun(states, steps) && k < m < |states| && steps[k] == Claim(i)
    requires i < |states[k].leaders|
    requires i < |states[k].leaders| - 1 || states[k].leaders[i].generation != states[k].generation
    ensures states[k + 1].child == states[k].child && states[k + 1].generation == states[k].generation
    ensures i < |states[m].leaders| && states[m].leaders[i].watcher == Finished && !states[m].leaders[i].claimed
  {
    RunInv(states, steps, k);
    assert Follows(states, steps, k);
    var s := states[k];
    if i < |s.leaders| - 1 {
      var last := s.leaders[|s.leaders| - 1];
      assert Mark(s.leaders[i]) < last.generation <= Mark(last) <= s.generation;
    }
    assert !Wins(s, i) && WatcherFits(s.leaders[i]);
    assert states[k + 1].leaders[i].watcher == Finished;
    RunPersists(states, steps, k + 1, m);
    assert LeaderPersists(states[k + 1].leaders[i], states[m].leaders[i]);
  }

  /** Recovery tokens and start generations never collide. */
  lemma TokensNeverCollide(states: seq<State>, steps: seq<Step>, k: nat, i: nat, j: nat)
    requires IsRun(states, steps) && k < |states| && i < |states[k].leaders| && j < |states[k].leaders|
    requires states[k].leaders[i].claimed
    ensures states[k].leaders[i].generation + 1 != states[k].leaders[j].generation
    ensures states[k].leaders[j].claimed && i != j ==>
      states[k].leaders[i].generation + 1 != states[k].leaders[j].generation + 1
  {
    RunInv(states, steps, k);
    var leaders := states[k].leaders;
    if i < j {
      assert Mark(leaders[i]) < leaders[j].generation;
    } else if j < i {
      assert Mark(leaders[j]) < leaders[i].generation;
    }
  }

  // A pending recovery that would pass its check on the generation.
  predicate Eligible(s: State, i: nat) {
    && i < |s.leaders| && (s.leaders[i].watcher == Sleeping || s.leaders[i].watcher == Recovering)
    && s.generation == s.leaders[i].generation + 1
  }

  lemma AtMostOneEligible(states: seq<State>, steps: seq<Step>, k: nat, i: nat, j: nat)
    requires IsRun(states, steps) && k < |states| && Eligible(states[k], i) && Eligible(states[k], j)
    ensures i == j
  {
    RunInv(states, steps, k);
    assert WatcherFits(states[k].leaders[i]) && WatcherFits(states[k].leaders[j]);
    if i != j {
      TokensNeverCollide(states, steps, k, i, j);
    }
  }

  // The step at which a stop or a start bumps the generation.
  predicate Bumps(s: State, step: Step) {
    step.Proceeds? && s.lock.Held? && (s.lock.at == Stop(Bump) || s.lock.at == Start(Advance))
  }

  /** Any stop or start after an exit was claimed cancels its recovery for good: if the recovery asks for the lifecycle
      lock, it gives it back without doing anything. */
  lemma BumpCancelsRecovery(states: seq<State>, steps: seq<Step>, k: nat, m: nat, i: nat)
    requires IsRun(states, steps) && k < m < |states| && Bumps(states[k], steps[k])
    requires i < |states[k].leaders| && states[k].leaders[i].claimed
    ensures !Eligible(states[m], i) && i < |states[m].leaders|
    ensures states[m].lock == Held(RecoveryCall(i), Entered) ==> Enter(states[m]) == GiveUp(states[m])
  {
    RunInv(states, steps, k);
    assert Follows(states, steps, k);
    assert Mark(states[k].leaders[i]) <= states[k].generation < states[k + 1].generation;
    RunPersists(states, steps, k, m);
    RunPersists(states, steps, k + 1, m);
    assert LeaderPersists(states[k].leaders[i], states[m].leaders[i]);
    RunInv(states, steps, m);
  }

  // ---- Quit ----

  lemma ClosedSpawnsNothing(s: State, step: Step)
    requires Inv(s) && Enabled(s, step) && s.closed
    ensures Do(s, step).closed && |Do(s, step).leaders| == |s.leaders|
  {
    match step
    case Proceeds(choice) => ClosedAdvance(s, choice);
    case _ =>
  }

  lemma ClosedAdvance(s: State, choice: Choice)
    requires Inv(s) && CanAdvance(s) && s.closed
    ensures AdvanceLock(s, choice).closed && |AdvanceLock(s, choice).leaders| == |s.leaders|
  {
    ClosedIsNotStarting(s);
    match s.lock.at
    case Entered => EntryKeepsNumber(s);
    case Stop(at) => StopKeepsNumber(s, at);
    case Returned(_) =>
    case Clearing(_) =>
    case Releasing(ok) => ReleaseKeepsNumber(s, ok);
  }

  lemma ClosedIsNotStarting(s: State)
    requires Inv(s) && s.lock.Held? && s.closed
    ensures !s.lock.at.Start?
  {
  }

  lemma EntryKeepsNumber(s: State)
    requires s.lock.Held? && CallerExists(s, s.lock.caller)
    ensures Enter(s).closed == s.closed && |Enter(s).leaders| == |s.leaders|
  {
    EnterCases(s);
  }

  lemma StopKeepsNumber(s: State, at: StopPoint)
    requires s.lock.Held?
    ensures AdvanceStop(s, at).closed == s.closed && |AdvanceStop(s, at).leaders| == |s.leaders|
  {
  }

  lemma ReleaseKeepsNumber(s: State, ok: bool)
    requires s.lock.Held? && CallerExists(s, s.lock.caller)
    ensures (s.closed ==> Release(s, ok).closed) && |Release(s, ok).leaders| == |s.leaders|
  {
  }

  /** Once a quit or an accepted exit has stopped the launcher, no later step of the run starts a child: the slot stays
      empty, no leader is alive and none is ever spawned. */
  lemma {:induction false} QuitIsFinal(states: seq<State>, steps: seq<Step>, k: nat, m: nat)
    requires IsRun(states, steps) && k <= m < |states| && states[k].closed
    ensures states[m].closed && |states[m].leaders| == |states[k].leaders|
    ensures states[m].child.None? && NoneAlive(states[m].leaders) && states[m].intentionalStop
    decreases m
  {
    RunInv(states, steps, m);
    if k < m {
      QuitIsFinal(states, steps, k, m - 1);
      ClosedStep(states, steps, m - 1);
    }
  }

  lemma ClosedStep(states: seq<State>, steps: seq<Step>, k: nat)
    requires IsRun(states, steps) && k < |steps| && states[k].closed
    ensures states[k + 1].closed && |states[k + 1].leaders| == |states[k].leaders|
  {
    RunInv(states, steps, k);
    assert Follows(states, steps, k);
    ClosedSpawnsNothing(states[k], steps[k]);
  }

  /** A quit or exit that is not refused ends closed: nothing but a refusal lets its caller give the lock back
      earlier. */
  lemma AcceptedQuitCloses(states: seq<State>, steps: seq<Step>, k: nat, m: nat)
    requires IsRun(states, steps) && k < m < |states|
    requires states[k].lock.Held? && StopCaller(states[k].lock.caller) && states[k].lock.at == Stop(Bump)
    requires states[m].lock.Free? || states[m].lock.caller != states[k].lock.caller
    ensures states[m].closed
  {
    var n := k;
    RunInv(states, steps, k);
    while n < m && UnderStop(states[n], states[k].lock.caller)
      invariant k <= n <= m && (UnderStop(states[n], states[k].lock.caller) || states[n].closed)
      decreases m - n
    {
      RunInv(states, steps, n);
      assert Follows(states, steps, n);
      StopGoesOn(states[n], steps[n]);
      n := n + 1;
    }
    QuitIsFinal(states, steps, n, m);
  }

  predicate UnderStop(s: State, c: Caller) {
    s.lock.Held? && s.lock.caller == c && (s.lock.at.Stop? || s.lock.at.Returned? || s.lock.at.Releasing?)
  }

  lemma StopGoesOn(s: State, step: Step)
    requires Inv(s) && Enabled(s, step) && s.lock.Held? && StopCaller(s.lock.caller) && UnderStop(s, s.lock.caller)
    ensures UnderStop(Do(s, step), s.lock.caller) || Do(s, step).closed
  {
    if step.Proceeds? {
      StopAdvances(s, step.choice);
    } else {
      OthersKeepLock(s, step);
    }
  }

  lemma StopAdvances(s: State, choice: Choice)
    requires CanAdvance(s) && StopCaller(s.lock.caller) && UnderStop(s, s.lock.caller)
    ensures UnderStop(AdvanceLock(s, choice), s.lock.caller) || AdvanceLock(s, choice).closed
  {
    match s.lock.at
    case Stop(at) => StopAdvancesPoint(s, at);
    case Returned(ok) => assert AfterReturn(s, ok) == Go(s, Releasing(ok));
    case Releasing(ok) => StopReleases(s, ok);
  }

  lemma StopAdvancesPoint(s: State, at: StopPoint)
    requires s.lock.Held? && StopCaller(s.lock.caller)
    ensures UnderStop(AdvanceStop(s, at), s.lock.caller)
  {
  }

  lemma StopReleases(s: State, ok: bool)
    requires s.lock.Held? && StopCaller(s.lock.caller)
    ensures Release(s, ok).closed
  {
  }

  lemma OthersKeepLock(s: State, step: Step)
    requires Enabled(s, step) && s.lock.Held? && !step.Proceeds?
    ensures Do(s, step).lock == s.lock
  {
    if WatcherStep(step) {
      WatchersKeepLock(s, step);
    }
  }

  lemma WatchersKeepLock(s: State, step: Step)
    requires Enabled(s, step) && WatcherStep(step)
    ensures Do(s, step).lock == s.lock
  {
    match step
    case Claim(i) => assert DoClaim(s, i).lock == s.lock;
    case NoteExit(i) => assert DoNoteExit(s, i).lock == s.lock;
    case _ =>
  }

  // ---- The snapshot ----

  /** A process that is signalled is the process that is shown. */
  lemma SignalledIsShown(states: seq<State>, steps: seq<Step>, k: nat)
    requires IsRun(states, steps) && k < |states| && states[k].snapshot.openSignalPid.Some?
    ensures states[k].snapshot.childPid == states[k].snapshot.openSignalPid
  {
    RunInv(states, steps, k);
  }

  // A step of an output thread of an older generation.
  predicate OldOutput(s: State, step: Step) {
    && (step.Output? || step.OutputSignal?)
    && step.leader < |s.leaders| && s.leaders[step.leader].generation != s.generation
  }

  /** After a stop or start has bumped the generation, an output thread of an older leader changes the snapshot exactly
      when the signal it still had to send to the process named there fails; then it only unnames that process. */
  lemma OldOutputChangesSnapshot(states: seq<State>, steps: seq<Step>, k: nat)
    requires IsRun(states, steps) && k < |steps| && OldOutput(states[k], steps[k])
    ensures states[k + 1].snapshot != states[k].snapshot <==>
      steps[k].OutputSignal? && !steps[k].delivered
      && states[k].snapshot.openRequestPending && states[k].snapshot.openSignalPid.Some?
    ensures states[k + 1].snapshot != states[k].snapshot ==>
      states[k + 1].snapshot == states[k].snapshot.(openSignalPid := None)
  {
    assert Follows(states, steps, k);
  }

  /** No output line of a leader that a stop or start has left behind ever changes the snapshot again. */
  lemma OldLinesChangeNothing(states: seq<State>, steps: seq<Step>, k: nat, m: nat)
    requires IsRun(states, steps) && k < m < |steps| && Bumps(states[k], steps[k])
    requires steps[m].Output? && steps[m].leader < |states[k].leaders|
    ensures states[m + 1].snapshot == states[m].snapshot
  {
    var i := steps[m].leader;
    RunInv(states, steps, k);
    assert Follows(states, steps, k);
    assert Mark(states[k].leaders[i]) <= states[k].generation < states[k + 1].generation;
    RunPersists(states, steps, k + 1, m);
    RunPersists(states, steps, k, m);
    assert LeaderPersists(states[k].leaders[i], states[m].leaders[i]);
    OldOutputChangesSnapshot(states, steps, m);
  }

  // The current child, which is the one named in the snapshot, acknowledges the request.
  predicate Acknowledges(s: State, step: Step) {
    && step.Output? && step.line.SignalQueued? && step.leader < |s.leaders| && Current(s, step.leader)
    && s.snapshot.openSignalPid == Some(s.leaders[step.leader].pid)
  }

  // The user declines the restart of Codex that the start in progress needs.
  predicate Declines(s: State, step: Step) {
    step.Proceeds? && step.choice.Decline? && s.lock.Held? && s.lock.at == Start(Prepare)
  }

  /** A pending open request is cleared exactly by an acknowledgement or by the user declining. */
  lemma RequestCleared(states: seq<State>, steps: seq<Step>, k: nat)
    requires IsRun(states, steps) && k < |steps| && states[k].snapshot.openRequestPending
    ensures !states[k + 1].snapshot.openRequestPending <==>
      Acknowledges(states[k], steps[k]) || Declines(states[k], steps[k])
  {
    assert Follows(states, steps, k);
    StepClearsRequest(states[k], steps[k]);
  }

  lemma StepClearsRequest(s: State, step: Step)
    requires Enabled(s, step) && s.snapshot.openRequestPending
    ensures !Do(s, step).snapshot.openRequestPending <==> Acknowledges(s, step) || Declines(s, step)
  {
    if step.Proceeds? {
      AdvanceClearsRequest(s, step.choice);
    } else if step.Output? {
      OutputClearsRequest(s, step.leader, step.line);
    } else {
      OtherStepsKeepRequest(s, step);
    }
  }

  lemma OutputClearsRequest(s: State, i: nat, line: Line)
    requires i < |s.leaders| && s.snapshot.openRequestPending
    ensures !DoOutput(s, i, line).snapshot.openRequestPending <==> Acknowledges(s, Output(i, line))
  {
  }

  lemma OtherStepsKeepRequest(s: State, step: Step)
    requires Enabled(s, step) && !step.Proceeds? && !step.Output? && s.snapshot.openRequestPending
    ensures Do(s, step).snapshot.openRequestPending
  {
    if WatcherStep(step) {
      WatchersKeepRequest(s, step);
    } else if step.OutputSignal? || step.OpenRequest? || step.OpenSignal? {
      SignalsKeepRequest(s, step);
    } else {
      RestKeepRequest(s, step);
    }
  }

  lemma WatchersKeepRequest(s: State, step: Step)
    requires Enabled(s, step) && WatcherStep(step)
    ensures Do(s, step).snapshot.openRequestPending == s.snapshot.openRequestPending
  {
    if step.NoteExit? {
      NoteKeepsRequest(s, step.leader);
    }
  }

  lemma NoteKeepsRequest(s: State, i: nat)
    requires i < |s.leaders| && s.leaders[i].watcher.Noted?
    ensures DoNoteExit(s, i).snapshot.openRequestPending == s.snapshot.openRequestPending
  {
  }

  lemma SignalsKeepRequest(s: State, step: Step)
    requires Enabled(s, step) && (step.OutputSignal? || step.OpenRequest? || step.OpenSignal?)
    requires s.snapshot.openRequestPending
    ensures Do(s, step).snapshot.openRequestPending
  {
  }

  lemma RestKeepRequest(s: State, step: Step)
    requires Enabled(s, step) && !WatcherStep(step) && !OutputStep(step) && !step.Proceeds?
    ensures Do(s, step).snapshot.openRequestPending == s.snapshot.openRequestPending
  {
    match step
    case Acquire(c) => assert Take(s, c).snapshot == s.snapshot;
    case Update(u, choice) => UpdateKeepsRequest(s, u, choice);
    case ShowRestartError(_) =>
    case ShowStartError =>
    case Offer =>
  }

  lemma UpdateKeepsRequest(s: State, u: nat, choice: Choice)
    requires u < |s.updaters|
    ensures DoUpdate(s, u, choice).snapshot.openRequestPending == s.snapshot.openRequestPending
  {
  }

  lemma AdvanceClearsRequest(s: State, choice: Choice)
    requires CanAdvance(s) && s.snapshot.openRequestPending
    ensures !AdvanceLock(s, choice).snapshot.openRequestPending <==> Declines(s, Proceeds(choice))
  {
    match s.lock.at
    case Entered => EntryKeepsSnapshot(s);
    case Stop(at) => StopKeepsRequest(s, at);
    case Start(at) => StartClearsRequest(s, at, choice);
    case Returned(ok) => ReturnKeepsSnapshot(s, ok);
    case Clearing(_) =>
    case Releasing(ok) => ReleaseKeepsSnapshot(s, ok);
  }

  lemma StopKeepsRequest(s: State, at: StopPoint)
    requires s.lock.Held?
    ensures AdvanceStop(s, at).snapshot.openRequestPending == s.snapshot.openRequestPending
  {
  }

  lemma ReturnKeepsSnapshot(s: State, ok: bool)
    requires s.lock.Held?
    ensures AfterReturn(s, ok).snapshot == s.snapshot
  {
  }

  lemma EntryKeepsSnapshot(s: State)
    requires s.lock.Held? && CallerExists(s, s.lock.caller)
    ensures Enter(s).snapshot == s.snapshot
  {
    EnterCases(s);
  }

  lemma ReleaseKeepsSnapshot(s: State, ok: bool)
    requires s.lock.Held? && CallerExists(s, s.lock.caller)
    ensures Release(s, ok).snapshot == s.snapshot
  {
  }

  lemma StartClearsRequest(s: State, at: StartPoint, choice: Choice)
    requires s.lock.Held? && (HoldsLeader(Start(at)) ==> s.leaders != []) && s.snapshot.openRequestPending
    ensures !AdvanceStart(s, at, choice).snapshot.openRequestPending <==> at.Prepare? && choice.Decline?
  {
    match at
    case Prepare =>
    case _ =>
  }
}
