/** The desktop launcher as a state machine. Every step is one mutex-protected block or one atomic operation of one
    thread; a block that also touches one atomic variable is one step, because nothing else it touches is visible to
    others before the block ends. Threads that wait for the lifecycle lock have no state of their own; the thread that
    holds it is described by its caller and the point it has reached. */
module Launcher {
  import opened Common

  type Pid = nat

  datatype Phase = Starting | Running | Stopped | Error

  datatype Snapshot =
    Snapshot(phase: Phase, childPid: Option<Pid>, openSignalPid: Option<Pid>, openRequestPending: bool)

  // The exit watcher of one spawned leader process. `generation + 1` is its recovery token once it has claimed the
  // exit.
  datatype Watcher =
    | NotSpawned
    | Waiting                     // in `child.wait()`
    | Reaped                      // the process has exited
    | Claimed                     // the compare-exchange has succeeded
    | Noted(intentional: bool)    // `intentional_stop` has been read
    | Sleeping                    // recovery is pending
    | Recovering                  // recovery holds the lifecycle lock
    | Failed(generation: nat)     // recovery failed; its error is still to be shown
    | Finished

  datatype Leader = Leader(pid: Pid, generation: nat, alive: bool, watcher: Watcher, claimed: bool, signalling: bool)

  // One call of `offer_update`.
  datatype Updater =
    | Arriving | Checking | Accepting | Downloading | Stopping | Installing | Reinstating | Restarting
    | Reporting(restarted: bool)  // the launcher has been started again, or not, after a failed installation
    | Finishing | Leaving | Gone

  // Why the lifecycle lock is held ...
  datatype Caller =
    | StartCall | RestartCall | QuitCall | ExitCall(restarting: bool) | FinalExitCall
    | UpdateStop(updater: nat) | UpdateRestart(updater: nat) | RecoveryCall(leader: nat)

  // ... and what its holder does next: enter its block, go through `stop_managed_child_locked` or
  // `start_launcher_locked`, or finish and give the lock back.
  datatype StopPoint = Bump | Flag | Empty | Note
  datatype StartPoint = Check | Prepare | Advance | Unflag | Announce | Spawn | Record | Fill | Show | Watch
  datatype Point =
    | Entered
    | Stop(stop: StopPoint)
    | Start(start: StartPoint)
    | Returned(ok: bool) | Clearing(ok: bool) | Releasing(ok: bool)

  datatype Lock = Free | Held(caller: Caller, at: Point)

  datatype State = State(
    lock: Lock, child: Option<Pid>, generation: nat, intentionalStop: bool, updateInProgress: bool,
    flowInProgress: bool,
    snapshot: Snapshot, leaders: seq<Leader>, updaters: seq<Updater>, openers: nat, restartErrors: multiset<nat>,
    startErrors: nat, closed: bool, exitAccepted: bool)

  const INITIAL := State(Free, None, 0, false, false, false, Snapshot(Starting, None, None, false), [], [], 0,
                         multiset{}, 0, false, false)

  // What the environment decides at a step: success or failure, a declined dialog, the pid of a new process.
  datatype Choice = Proceed | Fail | Decline | Spawned(pid: Pid)

  datatype Line = WaitingForCodex | Listening | SignalReady | SignalQueued | Opened | Injected

  datatype Step =
    | Acquire(caller: Caller)
    | Proceeds(choice: Choice)
    | Die(leader: nat)
    | Reap(leader: nat)
    | Claim(leader: nat)
    | ReadIntentional(leader: nat)
    | NoteExit(leader: nat)
    | ShowRecoveryError(leader: nat)
    | ShowRestartError(generation: nat)
    | ShowStartError
    | Output(leader: nat, line: Line)
    | OutputSignal(leader: nat, delivered: bool)
    | OpenRequest
    | OpenSignal(delivered: bool)
    | Offer
    | Update(updater: nat, choice: Choice)

  // ---- stop_managed_child_locked and start_launcher_locked ----

  function WithWatcher(s: State, i: nat, w: Watcher): State
    requires i < |s.leaders|
  {
    s.(leaders := s.leaders[i := s.leaders[i].(watcher := w)])
  }

  function WithUpdater(s: State, u: nat, pc: Updater): State
    requires u < |s.updaters|
  {
    s.(updaters := s.updaters[u := pc])
  }

  function Go(s: State, at: Point): State
    requires s.lock.Held?
  {
    s.(lock := Held(s.lock.caller, at))
  }

  // Every process with this pid is dead once the stop has returned.
  function Killed(leaders: seq<Leader>, pid: Pid): (r: seq<Leader>)
    ensures |r| == |leaders|
    ensures forall i | 0 <= i < |r| :: r[i] == if leaders[i].pid == pid then leaders[i].(alive := false) else leaders[i]
  {
    seq(|leaders|, i requires 0 <= i < |leaders| =>
      if leaders[i].pid == pid then leaders[i].(alive := false) else leaders[i])
  }

  function AdvanceStop(s: State, at: StopPoint): State
    requires s.lock.Held?
  {
    match at
    case Bump => Go(s.(generation := s.generation + 1), Stop(Flag))
    case Flag => Go(s.(intentionalStop := true), Stop(Empty))
    case Empty =>
      Go(if s.child.Some? then s.(child := None, leaders := Killed(s.leaders, s.child.value)) else s, Stop(Note))
    case Note =>
      Go(s.(snapshot := s.snapshot.(phase := Stopped, childPid := None, openSignalPid := None)),
         if s.lock.caller.RestartCall? then Start(Check) else Returned(true))
  }

  // From the spawn of the process to the spawn of its watcher, the new process is the last leader.
  predicate HoldsLeader(at: Point) {
    at.Start? && (at.start.Record? || at.start.Fill? || at.start.Show? || at.start.Watch?)
  }

  function AdvanceStart(s: State, at: StartPoint, choice: Choice): State
    requires s.lock.Held? && (HoldsLeader(Start(at)) ==> s.leaders != [])
  {
    match at
    case Check => Go(s, if s.child.Some? then Returned(true) else Start(Prepare))
    case Prepare =>
      (match choice
       case Fail => Go(s, Returned(false))
       case Decline =>
         Go(s.(snapshot := s.snapshot.(phase := Stopped, openSignalPid := None, openRequestPending := false)),
           Returned(true))
       case _ => Go(s, Start(Advance)))
    case Advance => Go(s.(generation := s.generation + 1), Start(Unflag))
    case Unflag => Go(s.(intentionalStop := false), Start(Announce))
    case Announce => Go(s.(snapshot := s.snapshot.(phase := Starting, openSignalPid := None)), Start(Spawn))
    case Spawn =>
      if choice.Spawned? then
        Go(s.(leaders := s.leaders + [Leader(choice.pid, s.generation, true, NotSpawned, false, false)]), Start(Record))
      else Go(s, Returned(false))
    case Record =>
      var last := |s.leaders| - 1;
      if choice.Fail? then Go(s.(leaders := s.leaders[last := s.leaders[last].(alive := false)]), Returned(false))
      else Go(s, Start(Fill))
    case Fill => Go(s.(child := Some(s.leaders[|s.leaders| - 1].pid)), Start(Show))
    case Show => Go(s.(snapshot := s.snapshot.(childPid := Some(s.leaders[|s.leaders| - 1].pid))), Start(Watch))
    case Watch => Go(WithWatcher(s, |s.leaders| - 1, Waiting), Returned(true))
  }

  // ---- The callers ----

  // Nothing was done: the lock is given back.
  function GiveUp(s: State): State
    requires s.lock.Held? && CallerExists(s, s.lock.caller)
  {
    var t := s.(lock := Free);
    match s.lock.caller
    case UpdateStop(u) => WithUpdater(t, u, Finishing)
    case RecoveryCall(i) => WithWatcher(t, i, Finished)
    case _ => t
  }

  predicate CallerExists(s: State, caller: Caller) {
    match caller
    case UpdateStop(u) => u < |s.updaters|
    case UpdateRestart(u) => u < |s.updaters|
    case RecoveryCall(i) => i < |s.leaders|
    case _ => true
  }

  function Enter(s: State): State
    requires s.lock.Held? && CallerExists(s, s.lock.caller)
  {
    match s.lock.caller
    case StartCall => if s.intentionalStop || s.updateInProgress then GiveUp(s) else Go(s, Start(Check))
    case RestartCall => if s.intentionalStop || s.updateInProgress then GiveUp(s) else Go(s, Stop(Bump))
    case QuitCall => if s.updateInProgress then GiveUp(s) else Go(s, Stop(Bump))
    case ExitCall(restarting) => if !restarting && s.updateInProgress then GiveUp(s) else Go(s, Stop(Bump))
    case FinalExitCall => Go(s, Stop(Bump))
    case UpdateStop(_) => if s.intentionalStop then GiveUp(s) else Go(s, Stop(Bump))
    case UpdateRestart(_) => Go(s, Start(Check))
    case RecoveryCall(i) =>
      if s.generation != s.leaders[i].generation + 1 || s.intentionalStop || s.updateInProgress then GiveUp(s)
      else Go(s, Start(Check))
  }

  function AfterReturn(s: State, ok: bool): State
    requires s.lock.Held?
  {
    match s.lock.caller
    case RestartCall => Go(s.(intentionalStop := false), Releasing(ok))
    case UpdateRestart(_) => Go(s.(intentionalStop := false), Clearing(ok))
    case _ => Go(s, Releasing(ok))
  }

  function Release(s: State, ok: bool): State
    requires s.lock.Held? && CallerExists(s, s.lock.caller)
  {
    var t := s.(lock := Free);
    match s.lock.caller
    case StartCall => if ok then t else t.(startErrors := t.startErrors + 1)
    case RestartCall => if ok then t else t.(restartErrors := t.restartErrors + multiset{t.generation})
    case QuitCall => t.(closed := true)
    case ExitCall(_) => t.(closed := true, exitAccepted := true)
    case FinalExitCall => t.(closed := true)
    case UpdateStop(u) => WithUpdater(t, u, Installing)
    case UpdateRestart(u) => WithUpdater(t, u, Reporting(ok))
    case RecoveryCall(i) => WithWatcher(t, i, if ok then Finished else Failed(t.generation))
  }

  predicate CanAdvance(s: State) {
    s.lock.Held? && CallerExists(s, s.lock.caller) && (HoldsLeader(s.lock.at) ==> s.leaders != [])
  }

  function AdvanceLock(s: State, choice: Choice): State
    requires CanAdvance(s)
  {
    match s.lock.at
    case Entered => Enter(s)
    case Stop(at) => AdvanceStop(s, at)
    case Start(at) => AdvanceStart(s, at, choice)
    case Returned(ok) => AfterReturn(s, ok)
    case Clearing(ok) => Go(s.(updateInProgress := false), Releasing(ok))
    case Releasing(ok) => Release(s, ok)
  }

  predicate Restarts(updaters: seq<Updater>) {
    exists u :: 0 <= u < |updaters| && updaters[u] == Restarting
  }

  // A restart exit is requested only by an update that has been installed; the final exit follows an accepted one.
  predicate MayAcquire(s: State, caller: Caller) {
    s.lock.Free? &&
    match caller
    case ExitCall(restarting) => restarting ==> Restarts(s.updaters)
    case FinalExitCall => s.exitAccepted
    case UpdateStop(u) => u < |s.updaters| && s.updaters[u] == Stopping
    case UpdateRestart(u) => u < |s.updaters| && s.updaters[u] == Reinstating
    case RecoveryCall(i) => i < |s.leaders| && s.leaders[i].watcher == Sleeping
    case _ => true
  }

  function Take(s: State, caller: Caller): State
    requires MayAcquire(s, caller)
  {
    var t := s.(lock := Held(caller, Entered));
    if caller.RecoveryCall? then WithWatcher(t, caller.leader, Recovering) else t
  }

  // ---- Exit watchers ----

  // The block that holds the child slot: the exit is claimed when the slot still names this pid and nothing has
  // bumped the generation.
  predicate Wins(s: State, i: nat)
    requires i < |s.leaders|
  {
    s.child == Some(s.leaders[i].pid) && s.generation == s.leaders[i].generation
  }

  function DoClaim(s: State, i: nat): State
    requires i < |s.leaders|
  {
    var wins := Wins(s, i);
    var l := s.leaders[i].(watcher := if wins then Claimed else Finished, claimed := wins || s.leaders[i].claimed);
    s.(child := if wins then None else s.child,
       generation := s.generation + (if wins then 1 else 0),
       leaders := s.leaders[i := l])
  }

  function ExitSnapshot(snapshot: Snapshot, current: bool, intentional: bool): Snapshot {
    if !current then snapshot
    else snapshot.(childPid := None, openSignalPid := None, phase := if intentional then snapshot.phase else Error)
  }

  function DoNoteExit(s: State, i: nat): State
    requires i < |s.leaders| && s.leaders[i].watcher.Noted?
  {
    var l := s.leaders[i];
    var current := s.generation == l.generation + 1 && s.snapshot.childPid == Some(l.pid);
    s.(snapshot := ExitSnapshot(s.snapshot, current, l.watcher.intentional),
       leaders := s.leaders[i := l.(watcher := if l.watcher.intentional then Finished else Sleeping)])
  }

  // The error of a failed recovery or restart is shown only while its generation is current and no child is shown.
  function ShowError(snapshot: Snapshot, current: bool): Snapshot {
    if current && snapshot.childPid.None? then snapshot.(phase := Error, openSignalPid := None) else snapshot
  }

  // ---- Output lines and open requests ----

  predicate Current(s: State, i: nat)
    requires i < |s.leaders|
  {
    s.generation == s.leaders[i].generation && s.snapshot.childPid == Some(s.leaders[i].pid)
  }

  function OutputSnapshot(snapshot: Snapshot, pid: Pid, current: bool, line: Line): Snapshot {
    if !current then snapshot
    else
      match line
      case WaitingForCodex => snapshot.(phase := Starting)
      case Listening => snapshot.(phase := Starting)
      case SignalReady => snapshot.(openSignalPid := Some(pid))
      case SignalQueued =>
        if snapshot.openSignalPid == Some(pid) then snapshot.(openRequestPending := false) else snapshot
      case Opened => snapshot.(phase := Running)
      case Injected => snapshot.(phase := Running)
  }

  function DoOutput(s: State, i: nat, line: Line): State
    requires i < |s.leaders|
  {
    var pid := s.leaders[i].pid;
    var snapshot := OutputSnapshot(s.snapshot, pid, Current(s, i), line);
    var signals := line.SignalReady? && snapshot.childPid == Some(pid) && snapshot.openSignalPid == Some(pid);
    s.(snapshot := snapshot,
       leaders := s.leaders[i := s.leaders[i].(signalling := signals || s.leaders[i].signalling)])
  }

  // `signal_pending_taskboard_open`: whoever is named in the snapshot is signalled; a failed signal unnames it.
  function DoSignal(snapshot: Snapshot, delivered: bool): Snapshot {
    if snapshot.openRequestPending && snapshot.openSignalPid.Some? && !delivered then snapshot.(openSignalPid := None)
    else snapshot
  }

  // ---- Updates ----

  // Where an update goes next, and the update and flow flags it leaves.
  function NextUpdate(pc: Updater, choice: Choice, flag: bool, flow: bool): (Updater, bool, bool) {
    match pc
    case Arriving => if flow then (Gone, flag, true) else (Checking, flag, true)
    case Checking => (if choice.Proceed? then Accepting else Finishing, flag, flow)
    case Accepting => (Downloading, true, flow)
    case Downloading => if choice.Proceed? then (Stopping, flag, flow) else (Finishing, false, flow)
    case Installing => (if choice.Proceed? then Restarting else Reinstating, flag, flow)
    case Reporting(_) => (Finishing, flag, flow)
    case Finishing => (Leaving, false, flow)
    case Leaving => (Gone, flag, false)
    case _ => (pc, flag, flow)
  }

  // A restart that failed after a failed installation is shown as an error.
  function UpdateSnapshot(snapshot: Snapshot, pc: Updater): Snapshot {
    if pc == Reporting(false) then snapshot.(phase := Error) else snapshot
  }

  function DoUpdate(s: State, u: nat, choice: Choice): State
    requires u < |s.updaters|
  {
    var (pc, flag, flow) := NextUpdate(s.updaters[u], choice, s.updateInProgress, s.flowInProgress);
    s.(updaters := s.updaters[u := pc], updateInProgress := flag, flowInProgress := flow,
       snapshot := UpdateSnapshot(s.snapshot, s.updaters[u]))
  }

  // ---- Steps and runs ----

  predicate Enabled(s: State, step: Step) {
    match step
    case Acquire(caller) => MayAcquire(s, caller)
    case Proceeds(_) => CanAdvance(s)
    case Die(i) => i < |s.leaders| && s.leaders[i].alive
    case Reap(i) => i < |s.leaders| && s.leaders[i].watcher == Waiting && !s.leaders[i].alive
    case Claim(i) => i < |s.leaders| && s.leaders[i].watcher == Reaped
    case ReadIntentional(i) => i < |s.leaders| && s.leaders[i].watcher == Claimed
    case NoteExit(i) => i < |s.leaders| && s.leaders[i].watcher.Noted?
    case ShowRecoveryError(i) => i < |s.leaders| && s.leaders[i].watcher.Failed?
    case ShowRestartError(g) => g in s.restartErrors
    case ShowStartError => s.startErrors > 0
    case Output(i, line) => i < |s.leaders| && s.leaders[i].watcher != NotSpawned
                         && (s.leaders[i].signalling ==> line.WaitingForCodex?)
    case OutputSignal(i, _) => i < |s.leaders| && s.leaders[i].signalling
    case OpenRequest => true
    case OpenSignal(_) => s.openers > 0
    case Offer => true
    case Update(u, _) => u < |s.updaters|
  }

  function Do(s: State, step: Step): State
    requires Enabled(s, step)
  {
    match step
    case Acquire(caller) => Take(s, caller)
    case Proceeds(choice) => AdvanceLock(s, choice)
    case Die(i) => s.(leaders := s.leaders[i := s.leaders[i].(alive := false)])
    case Reap(i) => WithWatcher(s, i, Reaped)
    case Claim(i) => DoClaim(s, i)
    case ReadIntentional(i) => WithWatcher(s, i, Noted(s.intentionalStop))
    case NoteExit(i) => DoNoteExit(s, i)
    case ShowRecoveryError(i) =>
      WithWatcher(s, i, Finished)
        .(snapshot := ShowError(s.snapshot, s.generation == s.leaders[i].watcher.generation))
    case ShowRestartError(g) =>
      s.(restartErrors := s.restartErrors - multiset{g}, snapshot := ShowError(s.snapshot, s.generation == g))
    case ShowStartError => s.(startErrors := s.startErrors - 1, snapshot := s.snapshot.(phase := Error))
    case Output(i, line) => DoOutput(s, i, line)
    case OutputSignal(i, delivered) =>
      s.(snapshot := DoSignal(s.snapshot, delivered), leaders := s.leaders[i := s.leaders[i].(signalling := false)])
    case OpenRequest => s.(snapshot := s.snapshot.(openRequestPending := true), openers := s.openers + 1)
    case OpenSignal(delivered) => s.(snapshot := DoSignal(s.snapshot, delivered), openers := s.openers - 1)
    case Offer => s.(updaters := s.updaters + [Arriving])
    case Update(u, choice) => DoUpdate(s, u, choice)
  }

  // A run: `states[0]` is the initial state and `steps[k]` leads from `states[k]` to `states[k + 1]`.
  ghost predicate IsRun(states: seq<State>, steps: seq<Step>) {
    && |states| == |steps| + 1
    && states[0] == INITIAL
    && forall k | 0 <= k < |steps| :: Follows(states, steps, k)
  }

  ghost predicate Follows(states: seq<State>, steps: seq<Step>, k: nat)
    requires |states| == |steps| + 1 && k < |steps|
  {
    Enabled(states[k], steps[k]) && states[k + 1] == Do(states[k], steps[k])
  }
}
