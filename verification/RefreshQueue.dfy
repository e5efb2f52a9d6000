/** The queue that coalesces snapshot refreshes: requests for a thread whose refresh is pending share that run's
    promise and are served by one more refresh. A run is one promise; the log records what callers and the refresh
    function see. */
module RefreshQueue {
  import opened Common
  import opened Sorting

  type Thread = nat

  datatype Event =
    | Asked(thread: Thread, run: nat)
    | Started(thread: Thread, run: nat)
    | Ended(thread: Thread, run: nat, ok: bool)
    | Resolved(thread: Thread, run: nat, ok: bool)

  // `busy` while the run awaits a refresh.
  datatype Job = Job(thread: Thread, queued: bool, busy: bool)

  datatype State = State(active: bool, states: map<Thread, nat>, runs: seq<Job>, log: seq<Event>)

  datatype Step = Request(thread: Thread) | Settle(run: nat, ok: bool) | Clear

  // ---- Steps ----

  ghost predicate Wf(s: State) {
    forall t | t in s.states :: s.states[t] < |s.runs| && s.runs[s.states[t]].thread == t
  }

  const EMPTY := State(true, map[], [], [])

  // A request joins the thread's run, or starts a run with its first refresh.
  function AfterRequest(s: State, t: Thread): (next: State)
    requires Wf(s)
    ensures Wf(next)
  {
    if t in s.states then
      var r := s.states[t];
      State(s.active, s.states, s.runs[r := s.runs[r].(queued := true)], s.log + [Asked(t, r)])
    else
      var r := |s.runs|;
      State(s.active, s.states[t := r], s.runs + [Job(t, false, true)], s.log + [Asked(t, r), Started(t, r)])
  }

  // The awaited refresh of a run settles: the loop goes round, or the run ends.
  function AfterSettle(s: State, r: nat, ok: bool): (next: State)
    requires Wf(s) && r < |s.runs| && s.runs[r].busy
    ensures Wf(next)
  {
    var t := s.runs[r].thread;
    if ok && s.active && s.runs[r].queued then
      State(s.active, s.states, s.runs[r := Job(t, false, true)], s.log + [Ended(t, r, ok), Started(t, r)])
    else
      State(s.active, if t in s.states && s.states[t] == r then s.states - {t} else s.states,
        s.runs[r := s.runs[r].(busy := false)], s.log + [Ended(t, r, ok), Resolved(t, r, ok)])
  }

  // A run that awaits nothing has nothing to settle.
  function After(s: State, step: Step): (next: State)
    requires Wf(s)
    ensures Wf(next)
  {
    match step
    case Request(t) => AfterRequest(s, t)
    case Settle(r, ok) => if r < |s.runs| && s.runs[r].busy then AfterSettle(s, r, ok) else s
    case Clear => State(false, map[], s.runs, s.log)
  }

  function Steps(s: State, steps: seq<Step>): (next: State)
    requires Wf(s)
    ensures Wf(next)
  {
    if steps == [] then s else After(Steps(s, steps[..|steps| - 1]), steps[|steps| - 1])
  }

  // What a step appends to the log.
  function Logged(s: State, step: Step): seq<Event>
    requires Wf(s)
  {
    match step
    case Request(t) => if t in s.states then [Asked(t, s.states[t])] else [Asked(t, |s.runs|), Started(t, |s.runs|)]
    case Settle(r, ok) =>
      if r < |s.runs| && s.runs[r].busy then [Ended(s.runs[r].thread, r, ok), Next(s, r, ok)] else []
    case Clear => []
  }

  // What follows the end of a refresh.
  function Next(s: State, r: nat, ok: bool): Event
    requires r < |s.runs|
  {
    if ok && s.active && s.runs[r].queued then Started(s.runs[r].thread, r) else Resolved(s.runs[r].thread, r, ok)
  }

  lemma LogGrows(s: State, step: Step)
    requires Wf(s)
    ensures After(s, step).log == s.log + Logged(s, step)
  {
  }

  lemma {:induction false} StepsPush(s: State, steps: seq<Step>, n: nat)
    requires Wf(s) && n < |steps|
    ensures Steps(s, steps[..n + 1]) == After(Steps(s, steps[..n]), steps[n])
  {
    assert steps[..n + 1][..n] == steps[..n];
  }

  lemma {:induction false} StepsAll(s: State, steps: seq<Step>)
    requires Wf(s)
    ensures Steps(s, steps[..|steps|]) == Steps(s, steps)
  {
    TakeAll(steps);
  }

  // ---- Refreshes in flight ----

  // An event starts a refresh of the thread, ends one, or does neither.
  function Change(event: Event, t: Thread): int {
    if event.thread != t then 0 else if event.Started? then 1 else if event.Ended? then -1 else 0
  }

  function InFlight(log: seq<Event>, t: Thread): int {
    if log == [] then 0 else InFlight(log[..|log| - 1], t) + Change(log[|log| - 1], t)
  }

  lemma {:induction false} InFlightPush(log: seq<Event>, event: Event, t: Thread)
    ensures InFlight(log + [event], t) == InFlight(log, t) + Change(event, t)
  {
    assert (log + [event])[..|log|] == log;
  }

  lemma {:induction false} InFlightPair(log: seq<Event>, first: Event, second: Event, t: Thread)
    ensures InFlight(log + [first, second], t) == InFlight(log, t) + Change(first, t) + Change(second, t)
  {
    assert log + [first, second] == log + [first] + [second];
    InFlightPush(log, first, t);
    InFlightPush(log + [first], second, t);
  }

  // The runs of a thread that await a refresh, whether the queue still knows them or not.
  function BusyCount(runs: seq<Job>, t: Thread): nat {
    if runs == [] then 0 else BusyCount(runs[..|runs| - 1], t) + Weight(runs[|runs| - 1], t)
  }

  function Weight(job: Job, t: Thread): nat {
    if job.thread == t && job.busy then 1 else 0
  }

  lemma {:induction false} BusyPush(runs: seq<Job>, job: Job, t: Thread)
    ensures BusyCount(runs + [job], t) == BusyCount(runs, t) + Weight(job, t)
  {
    assert (runs + [job])[..|runs|] == runs;
  }

  lemma {:induction false} BusyUpdate(runs: seq<Job>, r: nat, job: Job, t: Thread)
    requires r < |runs|
    ensures BusyCount(runs[r := job], t) == BusyCount(runs, t) - Weight(runs[r], t) + Weight(job, t)
  {
    var front, changed := runs[..|runs| - 1], runs[r := job];
    if r == |runs| - 1 {
      assert changed[..|runs| - 1] == front;
    } else {
      BusyUpdate(front, r, job, t);
      assert changed[..|runs| - 1] == front[r := job];
    }
  }

  lemma {:induction false} BusyOne(runs: seq<Job>, r: nat, t: Thread)
    requires r < |runs| && Weight(runs[r], t) == 1
    ensures BusyCount(runs, t) >= 1
  {
    if r < |runs| - 1 {
      BusyOne(runs[..|runs| - 1], r, t);
    }
  }

  ghost predicate Counted(s: State) {
    forall t: Thread :: InFlight(s.log, t) == BusyCount(s.runs, t)
  }

  lemma {:induction false} RequestCounts(s: State, u: Thread, t: Thread)
    requires Wf(s) && InFlight(s.log, t) == BusyCount(s.runs, t)
    ensures InFlight(AfterRequest(s, u).log, t) == BusyCount(AfterRequest(s, u).runs, t)
  {
    if u in s.states {
      InFlightPush(s.log, Asked(u, s.states[u]), t);
      BusyUpdate(s.runs, s.states[u], s.runs[s.states[u]].(queued := true), t);
    } else {
      InFlightPair(s.log, Asked(u, |s.runs|), Started(u, |s.runs|), t);
      BusyPush(s.runs, Job(u, false, true), t);
    }
  }

  lemma {:induction false} SettleCounts(s: State, r: nat, ok: bool, t: Thread)
    requires Wf(s) && r < |s.runs| && s.runs[r].busy && InFlight(s.log, t) == BusyCount(s.runs, t)
    ensures InFlight(AfterSettle(s, r, ok).log, t) == BusyCount(AfterSettle(s, r, ok).runs, t)
  {
    InFlightPair(s.log, Ended(s.runs[r].thread, r, ok), Next(s, r, ok), t);
    BusyUpdate(s.runs, r, Job(s.runs[r].thread, false, true), t);
    BusyUpdate(s.runs, r, s.runs[r].(busy := false), t);
  }

  lemma StepCounts(s: State, step: Step)
    requires Wf(s) && Counted(s)
    ensures Counted(After(s, step))
  {
    forall t: Thread ensures InFlight(After(s, step).log, t) == BusyCount(After(s, step).runs, t) {
      match step {
        case Request(u) => RequestCounts(s, u, t);
        case Settle(r, ok) =>
          if r < |s.runs| && s.runs[r].busy {
            SettleCounts(s, r, ok, t);
          }
        case Clear =>
      }
    }
  }

  /** In every run, before and after a clear, the refreshes of a thread in flight are its runs that await one. */
  lemma {:induction false} InFlightIsBusy(steps: seq<Step>)
    ensures Counted(Steps(EMPTY, steps))
  {
    if steps != [] {
      InFlightIsBusy(steps[..|steps| - 1]);
      StepCounts(Steps(EMPTY, steps[..|steps| - 1]), steps[|steps| - 1]);
    }
  }

  // ---- When there is at most one ----

  /** The step requests a thread that the queue has no state for although a run of it still awaits a refresh. */
  predicate Overlaps(s: State, step: Step, t: Thread) {
    step == Request(t) && t !in s.states && BusyCount(s.runs, t) > 0
  }

  // A step leaves at most one run of the thread waiting, unless it overlaps.
  lemma {:induction false} StepAddsOne(s: State, step: Step, t: Thread)
    requires Wf(s) && BusyCount(s.runs, t) <= 1
    ensures BusyCount(After(s, step).runs, t) <= 1 <==> !Overlaps(s, step, t)
  {
    match step {
      case Request(u) =>
        if u in s.states {
          BusyUpdate(s.runs, s.states[u], s.runs[s.states[u]].(queued := true), t);
        } else {
          BusyPush(s.runs, Job(u, false, true), t);
        }
      case Settle(r, ok) =>
        if r < |s.runs| && s.runs[r].busy {
          BusyUpdate(s.runs, r, Job(s.runs[r].thread, false, true), t);
          BusyUpdate(s.runs, r, s.runs[r].(busy := false), t);
        }
      case Clear =>
    }
  }

  ghost predicate AlwaysAtMostOne(steps: seq<Step>, t: Thread) {
    forall n: nat | n <= |steps| :: InFlight(Steps(EMPTY, steps[..n]).log, t) <= 1
  }

  ghost predicate NeverOverlaps(steps: seq<Step>, t: Thread) {
    forall n: nat | n < |steps| :: !Overlaps(Steps(EMPTY, steps[..n]), steps[n], t)
  }

  /** A thread has at most one refresh in flight at every moment of a run exactly when no step of the run requests it
      while it has no state and a run of it, forgotten by a clear, still awaits its refresh. */
  lemma AtMostOneIffNoOverlap(steps: seq<Step>, t: Thread)
    ensures AlwaysAtMostOne(steps, t) <==> NeverOverlaps(steps, t)
  {
    if AlwaysAtMostOne(steps, t) {
      forall n: nat | n < |steps| ensures !Overlaps(Steps(EMPTY, steps[..n]), steps[n], t) {
        InFlightIsBusy(steps[..n]);
        InFlightIsBusy(steps[..n + 1]);
        StepsPush(EMPTY, steps, n);
        StepAddsOne(Steps(EMPTY, steps[..n]), steps[n], t);
      }
    }
    if NeverOverlaps(steps, t) {
      forall n: nat | n <= |steps| ensures InFlight(Steps(EMPTY, steps[..n]).log, t) <= 1 {
        AtMostOneUpTo(steps, t, n);
        InFlightIsBusy(steps[..n]);
      }
    }
  }

  lemma {:induction false} AtMostOneUpTo(steps: seq<Step>, t: Thread, n: nat)
    requires NeverOverlaps(steps, t) && n <= |steps|
    ensures BusyCount(Steps(EMPTY, steps[..n]).runs, t) <= 1
  {
    if n > 0 {
      AtMostOneUpTo(steps, t, n - 1);
      NextStaysOne(steps, t, n - 1);
    }
  }

  lemma {:induction false} NextStaysOne(steps: seq<Step>, t: Thread, n: nat)
    requires NeverOverlaps(steps, t) && n < |steps| && BusyCount(Steps(EMPTY, steps[..n]).runs, t) <= 1
    ensures BusyCount(Steps(EMPTY, steps[..n + 1]).runs, t) <= 1
  {
    StepsPush(EMPTY, steps, n);
    StepAddsOne(Steps(EMPTY, steps[..n]), steps[n], t);
  }

  // While the queue is active the busy runs are the listed ones.
  ghost predicate BusyAreListed(s: State)
    requires Wf(s)
  {
    && (forall t | t in s.states :: s.runs[s.states[t]].busy)
    && (forall r | 0 <= r < |s.runs| && s.runs[r].busy ::
      s.runs[r].thread in s.states && s.states[s.runs[r].thread] == r)
  }

  ghost predicate Inv(s: State) {
    Wf(s) && s.active && BusyAreListed(s)
  }

  lemma StepKeepsInv(s: State, step: Step)
    requires Inv(s) && !step.Clear?
    ensures Inv(After(s, step))
  {
  }

  lemma {:induction false} StepsKeepInv(s: State, steps: seq<Step>)
    requires Inv(s) && Clear !in steps
    ensures Inv(Steps(s, steps))
  {
    if steps != [] {
      StepsKeepInv(s, steps[..|steps| - 1]);
      StepKeepsInv(Steps(s, steps[..|steps| - 1]), steps[|steps| - 1]);
    }
  }

  lemma {:induction false} NoneBusy(runs: seq<Job>, t: Thread)
    requires forall r | 0 <= r < |runs| :: Weight(runs[r], t) == 0
    ensures BusyCount(runs, t) == 0
  {
    if runs != [] {
      NoneBusy(runs[..|runs| - 1], t);
    }
  }

  lemma {:induction false} UnlistedIsIdle(s: State, t: Thread)
    requires Inv(s) && t !in s.states
    ensures BusyCount(s.runs, t) == 0
  {
    NoneBusy(s.runs, t);
  }

  lemma ActiveNeverOverlaps(steps: seq<Step>, t: Thread)
    requires Clear !in steps
    ensures NeverOverlaps(steps, t)
  {
    forall n: nat | n < |steps| ensures !Overlaps(Steps(EMPTY, steps[..n]), steps[n], t) {
      StepsKeepInv(EMPTY, steps[..n]);
      if t !in Steps(EMPTY, steps[..n]).states {
        UnlistedIsIdle(Steps(EMPTY, steps[..n]), t);
      }
    }
  }

  /** Until the queue is cleared, a thread never has more than one refresh in flight, and it has one exactly while the
      thread has a state. */
  lemma {:induction false} OneInFlight(steps: seq<Step>, t: Thread)
    requires Clear !in steps
    ensures AlwaysAtMostOne(steps, t)
    ensures InFlight(Steps(EMPTY, steps).log, t) == if t in Steps(EMPTY, steps).states then 1 else 0
  {
    ActiveNeverOverlaps(steps, t);
    AtMostOneIffNoOverlap(steps, t);
    StepsAll(EMPTY, steps);
    InFlightIsBusy(steps);
    StepsKeepInv(EMPTY, steps);
    var s := Steps(EMPTY, steps);
    if t in s.states {
      BusyOne(s.runs, s.states[t], t);
    } else {
      UnlistedIsIdle(s, t);
    }
  }

  /** The exception is real: clearing drops the states of pending runs, so a request after it starts a second refresh of
      the same thread. */
  lemma {:induction false} TwoInFlightAfterClear(t: Thread)
    ensures InFlight(Steps(EMPTY, [Request(t), Clear, Request(t)]).log, t) == 2
  {
    var steps := [Request(t), Clear, Request(t)];
    StepsPush(EMPTY, steps, 0);
    StepsPush(EMPTY, steps, 1);
    StepsPush(EMPTY, steps, 2);
    StepsAll(EMPTY, steps);
    assert steps[..0] == [];
    InFlightPair([], Asked(t, 0), Started(t, 0), t);
    InFlightPair(Steps(EMPTY, steps[..2]).log, Asked(t, 1), Started(t, 1), t);
  }

  // ---- Every request is served ----

  ghost predicate StartedAfter(log: seq<Event>, i: nat, t: Thread, r: nat) {
    exists k: nat :: i < k < |log| && log[k] == Started(t, r)
  }

  lemma StartedStays(log: seq<Event>, more: seq<Event>, i: nat, t: Thread, r: nat)
    requires StartedAfter(log, i, t, r)
    ensures StartedAfter(log + more, i, t, r)
  {
    var k: nat :| i < k < |log| && log[k] == Started(t, r);
    assert (log + more)[k] == Started(t, r);
  }

  lemma StartedIsNew(log: seq<Event>, more: seq<Event>, i: nat, t: Thread, r: nat)
    requires Started(t, r) !in more && i < |log|
    ensures StartedAfter(log + more, i, t, r) <==> StartedAfter(log, i, t, r)
  {
    if StartedAfter(log, i, t, r) {
      StartedStays(log, more, i, t, r);
    }
    assert forall k | |log| <= k < |log + more| :: (log + more)[k] in more;
    if k: nat :| i < k < |log + more| && (log + more)[k] == Started(t, r) {
      assert log[k] == Started(t, r);
    }
  }

  // The promise kept to one request by one fulfilment.
  ghost predicate Kept(log: seq<Event>, i: nat, j: nat)
    requires i < |log| && j <= |log|
  {
    StartedAfter(log[..j], i, log[i].thread, log[i].run)
  }

  predicate Fulfils(log: seq<Event>, i: nat, j: nat)
    requires i < |log| && j < |log|
  {
    log[i].Asked? && log[j] == Resolved(log[i].thread, log[i].run, true)
  }

  /** No promise in the log was fulfilled before a refresh had started after each of the requests that share it. */
  ghost predicate KeptPromises(log: seq<Event>) {
    forall i: nat, j: nat | i < j < |log| && Fulfils(log, i, j) :: Kept(log, i, j)
  }

  // A run that awaits a refresh is queued exactly when some request of it has seen no later start.
  ghost predicate Unserved(log: seq<Event>, t: Thread, r: nat, i: nat) {
    i < |log| && log[i] == Asked(t, r) && !StartedAfter(log, i, t, r)
  }

  ghost predicate QueuedMeans(log: seq<Event>, job: Job, r: nat) {
    job.busy ==> (job.queued <==> exists i: nat :: Unserved(log, job.thread, r, i))
  }

  ghost predicate Served(s: State) {
    forall r | 0 <= r < |s.runs| :: QueuedMeans(s.log, s.runs[r], r)
  }

  // Events of later runs have not happened.
  ghost predicate RunsKnown(s: State) {
    forall i | 0 <= i < |s.log| :: s.log[i].run < |s.runs| && s.runs[s.log[i].run].thread == s.log[i].thread
  }

  lemma StepKeepsKnown(s: State, step: Step)
    requires Wf(s) && RunsKnown(s)
    ensures RunsKnown(After(s, step))
  {
  }

  // Events of other runs change nothing for a run.
  lemma OthersQueuedMeans(log: seq<Event>, more: seq<Event>, job: Job, r: nat)
    requires QueuedMeans(log, job, r) && forall i | 0 <= i < |more| :: more[i].run != r
    ensures QueuedMeans(log + more, job, r)
  {
    forall i: nat ensures Unserved(log + more, job.thread, r, i) <==> Unserved(log, job.thread, r, i) {
      if i < |log| {
        StartedIsNew(log, more, i, job.thread, r);
      } else if i < |log + more| {
        assert (log + more)[i] == more[i - |log|];
      }
    }
  }

  // A request is unserved until its run starts again; a start serves all requests before it.
  lemma AskedIsUnserved(log: seq<Event>, t: Thread, r: nat)
    ensures Unserved(log + [Asked(t, r)], t, r, |log|)
  {
  }

  lemma StartedServesAll(log: seq<Event>, event: Event, t: Thread, r: nat)
    requires !event.Asked?
    ensures forall i: nat :: !Unserved(log + [event, Started(t, r)], t, r, i)
  {
    var all := log + [event, Started(t, r)];
    forall i: nat | i < |log| ensures StartedAfter(all, i, t, r) {
      assert all[|log| + 1] == Started(t, r);
    }
  }

  lemma FirstIsServed(log: seq<Event>, t: Thread, r: nat)
    requires forall i | 0 <= i < |log| :: log[i].run != r
    ensures forall i: nat :: !Unserved(log + [Asked(t, r), Started(t, r)], t, r, i)
  {
    var all := log + [Asked(t, r), Started(t, r)];
    assert all[|log| + 1] == Started(t, r);
    assert StartedAfter(all, |log|, t, r);
  }

  lemma RequestServes(s: State, t: Thread)
    requires Wf(s) && RunsKnown(s) && Served(s)
    ensures Served(AfterRequest(s, t))
  {
    var s' := AfterRequest(s, t);
    LogGrows(s, Request(t));
    forall r | 0 <= r < |s'.runs| ensures QueuedMeans(s'.log, s'.runs[r], r) {
      if t in s.states && r == s.states[t] {
        AskedIsUnserved(s.log, t, r);
      } else if r < |s.runs| {
        OthersQueuedMeans(s.log, Logged(s, Request(t)), s.runs[r], r);
      } else {
        FirstIsServed(s.log, t, r);
      }
    }
  }

  lemma SettleServes(s: State, r: nat, ok: bool)
    requires Wf(s) && Served(s) && r < |s.runs| && s.runs[r].busy
    ensures Served(AfterSettle(s, r, ok))
  {
    var s' := AfterSettle(s, r, ok);
    LogGrows(s, Settle(r, ok));
    forall q | 0 <= q < |s'.runs| ensures QueuedMeans(s'.log, s'.runs[q], q) {
      if q == r {
        StartedServesAll(s.log, Ended(s.runs[r].thread, r, ok), s.runs[r].thread, r);
      } else {
        OthersQueuedMeans(s.log, Logged(s, Settle(r, ok)), s.runs[q], q);
      }
    }
  }

  ghost predicate LogInv(s: State) {
    RunsKnown(s) && Served(s)
  }

  lemma StepKeepsLogInv(s: State, step: Step)
    requires Wf(s) && LogInv(s)
    ensures LogInv(After(s, step))
  {
    StepKeepsKnown(s, step);
    match step {
      case Request(t) => RequestServes(s, t);
      case Settle(r, ok) =>
        if r < |s.runs| && s.runs[r].busy {
          SettleServes(s, r, ok);
        }
      case Clear =>
    }
  }

  lemma {:induction false} StepsKeepLogInv(steps: seq<Step>)
    ensures LogInv(Steps(EMPTY, steps))
  {
    if steps != [] {
      StepsKeepLogInv(steps[..|steps| - 1]);
      StepKeepsLogInv(Steps(EMPTY, steps[..|steps| - 1]), steps[|steps| - 1]);
    }
  }

  /** The step fulfils the promise of a run that was asked again while its refresh was pending, without another refresh:
      the queue has been cleared since. */
  predicate Abandons(s: State, step: Step) {
    step.Settle? && step.ok && step.run < |s.runs| && s.runs[step.run].busy && s.runs[step.run].queued && !s.active
  }

  lemma PrefixKept(log: seq<Event>, more: seq<Event>)
    requires KeptPromises(log + more)
    ensures KeptPromises(log)
  {
    forall i: nat, j: nat | i < j < |log| && Fulfils(log, i, j) ensures Kept(log, i, j) {
      assert (log + more)[i] == log[i] && (log + more)[j] == log[j] && (log + more)[..j] == log[..j];
      assert Fulfils(log + more, i, j);
      assert Kept(log + more, i, j);
    }
  }

  // Without a fulfilment the promises so far stay kept.
  lemma PlainExtend(log: seq<Event>, more: seq<Event>)
    requires KeptPromises(log) && forall i | 0 <= i < |more| :: !(more[i].Resolved? && more[i].ok)
    ensures KeptPromises(log + more)
  {
    var all := log + more;
    assert forall k | |log| <= k < |all| :: all[k] == more[k - |log|];
    forall i: nat, j: nat | i < j < |all| && Fulfils(all, i, j) ensures Kept(all, i, j) {
      assert Fulfils(log, i, j) && Kept(log, i, j);
      assert all[..j] == log[..j];
    }
  }

  // A fulfilment keeps the promises exactly when no request of its run is unserved.
  lemma FulfilmentKeeps(log: seq<Event>, t: Thread, r: nat)
    requires KeptPromises(log)
    ensures KeptPromises(log + [Ended(t, r, true), Resolved(t, r, true)]) <==> forall i: nat :: !Unserved(log, t, r, i)
  {
    var all := log + [Ended(t, r, true), Resolved(t, r, true)];
    var last := |log| + 1;
    if KeptPromises(all) {
      forall i: nat ensures !Unserved(log, t, r, i) {
        if i < |log| && log[i] == Asked(t, r) {
          assert Fulfils(all, i, last) && Kept(all, i, last);
          StartBeforeEnd(log, t, r, i);
        }
      }
    }
    if forall i: nat :: !Unserved(log, t, r, i) {
      PlainExtend(log, [Ended(t, r, true)]);
      forall i: nat, j: nat | i < j < |all| && Fulfils(all, i, j) ensures Kept(all, i, j) {
        if j == last {
          assert i < |log| && log[i] == Asked(t, r) && !Unserved(log, t, r, i);
          StartBeforeEnd(log, t, r, i);
        } else {
          var before := log + [Ended(t, r, true)];
          assert all[i] == before[i] && all[j] == before[j] && all[..j] == before[..j];
          assert Fulfils(before, i, j) && Kept(before, i, j);
        }
      }
    }
  }

  lemma StartBeforeEnd(log: seq<Event>, t: Thread, r: nat, i: nat)
    requires i < |log|
    ensures var all := log + [Ended(t, r, true), Resolved(t, r, true)];
      StartedAfter(all[..|log| + 1], i, t, r) <==> StartedAfter(log, i, t, r)
  {
    assert (log + [Ended(t, r, true), Resolved(t, r, true)])[..|log| + 1] == log + [Ended(t, r, true)];
    StartedIsNew(log, [Ended(t, r, true)], i, t, r);
  }

  lemma SettlingKeepsPromises(s: State, r: nat)
    requires Wf(s) && Served(s) && KeptPromises(s.log)
    requires r < |s.runs| && s.runs[r].busy && !(s.active && s.runs[r].queued)
    ensures KeptPromises(After(s, Settle(r, true)).log) <==> !s.runs[r].queued
  {
    LogGrows(s, Settle(r, true));
    FulfilmentKeeps(s.log, s.runs[r].thread, r);
    assert QueuedMeans(s.log, s.runs[r], r);
  }

  lemma StepKeepsPromises(s: State, step: Step)
    requires Wf(s) && Served(s)
    ensures KeptPromises(After(s, step).log) <==> KeptPromises(s.log) && !Abandons(s, step)
  {
    LogGrows(s, step);
    if KeptPromises(After(s, step).log) {
      PrefixKept(s.log, Logged(s, step));
    }
    if KeptPromises(s.log) {
      if step.Settle? && step.ok && step.run < |s.runs| && s.runs[step.run].busy
        && !(s.active && s.runs[step.run].queued) {
        SettlingKeepsPromises(s, step.run);
      } else {
        PlainExtend(s.log, Logged(s, step));
      }
    }
  }

  predicate AbandonsAt(steps: seq<Step>, n: nat)
    requires n < |steps|
  {
    Abandons(Steps(EMPTY, steps[..n]), steps[n])
  }

  // Among the first n steps.
  ghost predicate NeverAbandons(steps: seq<Step>, n: nat)
    requires n <= |steps|
  {
    forall k: nat | k < n :: !AbandonsAt(steps, k)
  }

  ghost predicate KeptUpTo(steps: seq<Step>, n: nat)
    requires n <= |steps|
  {
    KeptPromises(Steps(EMPTY, steps[..n]).log)
  }

  lemma NextKept(steps: seq<Step>, n: nat)
    requires n < |steps|
    ensures KeptUpTo(steps, n + 1) <==> KeptUpTo(steps, n) && !AbandonsAt(steps, n)
  {
    StepsKeepLogInv(steps[..n]);
    StepsPush(EMPTY, steps, n);
    StepKeepsPromises(Steps(EMPTY, steps[..n]), steps[n]);
  }

  lemma {:induction false} KeptIfNever(steps: seq<Step>, n: nat)
    requires n <= |steps| && NeverAbandons(steps, n)
    ensures KeptUpTo(steps, n)
  {
    if n > 0 {
      KeptIfNever(steps, n - 1);
      NextKept(steps, n - 1);
    }
  }

  lemma {:induction false} NeverIfKept(steps: seq<Step>, n: nat)
    requires n <= |steps| && KeptUpTo(steps, n)
    ensures NeverAbandons(steps, n)
  {
    if n > 0 {
      NextKept(steps, n - 1);
      NeverIfKept(steps, n - 1);
      forall k: nat | k < n ensures !AbandonsAt(steps, k) {
        assert k == n - 1 || k < n - 1;
      }
    }
  }

  /** In every run, before and after a clear, each promise is fulfilled only after a refresh that started later than
      every request sharing it, exactly when no step of the run settles a successful refresh after a clear while a
      request waits for another one. */
  lemma {:induction false} PromisesKeptIffNoneAbandoned(steps: seq<Step>)
    ensures KeptPromises(Steps(EMPTY, steps).log) <==> NeverAbandons(steps, |steps|)
  {
    StepsAll(EMPTY, steps);
    if NeverAbandons(steps, |steps|) {
      KeptIfNever(steps, |steps|);
    }
    if KeptPromises(Steps(EMPTY, steps).log) {
      NeverIfKept(steps, |steps|);
    }
  }

  /** Until the queue is cleared, a promise is fulfilled only after a refresh of its thread has started later than every
      request that shares it. */
  lemma {:induction false} RequestsAreServed(steps: seq<Step>, i: nat, j: nat, t: Thread, r: nat)
    requires Clear !in steps && i < j < |Steps(EMPTY, steps).log|
    requires Steps(EMPTY, steps).log[i] == Asked(t, r) && Steps(EMPTY, steps).log[j] == Resolved(t, r, true)
    ensures exists k :: i < k < j && Steps(EMPTY, steps).log[k] == Started(t, r)
  {
    forall n: nat | n < |steps| ensures !AbandonsAt(steps, n) {
      StepsKeepInv(EMPTY, steps[..n]);
    }
    PromisesKeptIffNoneAbandoned(steps);
    var log := Steps(EMPTY, steps).log;
    assert Fulfils(log, i, j) && Kept(log, i, j);
    var k: nat :| i < k < j && log[..j][k] == Started(t, r);
    assert log[k] == Started(t, r);
  }

  /** The exception is real: the second request is answered by the refresh that was already under way. */
  lemma AbandonedAfterClear(t: Thread)
    ensures var s := Steps(EMPTY, [Request(t), Request(t), Clear, Settle(0, true)]);
      && s.log == [Asked(t, 0), Started(t, 0), Asked(t, 0), Ended(t, 0, true), Resolved(t, 0, true)]
      && !KeptPromises(s.log)
  {
    var steps := [Request(t), Request(t), Clear, Settle(0, true)];
    StepsPush(EMPTY, steps, 0);
    StepsPush(EMPTY, steps, 1);
    StepsPush(EMPTY, steps, 2);
    StepsPush(EMPTY, steps, 3);
    StepsAll(EMPTY, steps);
    assert steps[..0] == [];
    var log := Steps(EMPTY, steps).log;
    assert Fulfils(log, 2, 4) && !Kept(log, 2, 4);
  }

  // ---- Threads are independent ----

  function Of(t: Thread): Event -> bool {
    (event: Event) => event.thread == t
  }

  // What a thread's callers see.
  function History(log: seq<Event>, t: Thread): seq<Event> {
    Filter(Of(t), log)
  }

  ghost predicate Touches(s: State, step: Step, t: Thread) {
    match step
    case Request(u) => u == t
    case Settle(r, _) => r < |s.runs| && s.runs[r].thread == t
    case Clear => true
  }

  lemma OtherHistoryUntouched(s: State, step: Step, t: Thread)
    requires Wf(s) && !Touches(s, step, t)
    ensures History(After(s, step).log, t) == History(s.log, t)
  {
    LogGrows(s, step);
    FilterAppend(Of(t), s.log, Logged(s, step));
    NoneOf(Logged(s, step), t);
  }

  /** A step of another thread changes neither the thread's state, nor its pending run, nor its history. */
  lemma OtherThreadsUntouched(s: State, step: Step, t: Thread)
    requires Wf(s) && !Touches(s, step, t)
    ensures var s' := After(s, step);
      && (t in s'.states <==> t in s.states)
      && (t in s.states ==> s'.states[t] == s.states[t] && s'.runs[s.states[t]] == s.runs[s.states[t]])
      && History(s'.log, t) == History(s.log, t)
  {
    OtherHistoryUntouched(s, step, t);
  }

  lemma {:induction false} NoneOf(events: seq<Event>, t: Thread)
    requires forall i | 0 <= i < |events| :: events[i].thread != t
    ensures History(events, t) == []
  {
    if events != [] {
      NoneOf(events[1..], t);
    }
  }

  // ---- Coalescing ----

  // Neither the settling of the run nor a clear is among the steps.
  ghost predicate Quiet(steps: seq<Step>, r: nat) {
    Clear !in steps && forall ok :: Settle(r, ok) !in steps
  }

  function Requests(steps: seq<Step>, t: Thread): nat {
    if steps == [] then 0
    else Requests(steps[..|steps| - 1], t) + if steps[|steps| - 1] == Request(t) then 1 else 0
  }

  function Repeat(event: Event, n: nat): seq<Event> {
    if n == 0 then [] else Repeat(event, n - 1) + [event]
  }

  // The thread's run r awaits a refresh.
  ghost predicate Pending(s: State, t: Thread, r: nat) {
    Inv(s) && t in s.states && s.states[t] == r
  }

  lemma PendingStep(s: State, step: Step, t: Thread, r: nat)
    requires Pending(s, t, r) && !step.Clear? && !(step.Settle? && step.run == r)
    ensures Pending(After(s, step), t, r)
    ensures After(s, step).runs[r].queued == (s.runs[r].queued || step == Request(t))
    ensures History(After(s, step).log, t) == History(s.log, t) + if step == Request(t) then [Asked(t, r)] else []
  {
    StepKeepsInv(s, step);
    if step == Request(t) {
      FilterAppend(Of(t), s.log, [Asked(t, r)]);
    } else if Touches(s, step, t) {
      assert After(s, step) == s;
    } else {
      OtherThreadsUntouched(s, step, t);
    }
  }

  lemma QuietFront(steps: seq<Step>, r: nat)
    requires Quiet(steps, r) && steps != []
    ensures Quiet(steps[..|steps| - 1], r)
    ensures var last := steps[|steps| - 1];
      !last.Clear? && !(last.Settle? && last.run == r)
  {
    var last := steps[|steps| - 1];
    assert last in steps;
    assert last != Settle(r, true) && last != Settle(r, false);
  }

  // What the run and the thread's callers see of the steps so far.
  ghost predicate Shared(s: State, now: State, t: Thread, r: nat, requests: nat) {
    && Pending(s, t, r) && Pending(now, t, r)
    && now.runs[r].queued == (s.runs[r].queued || requests > 0)
    && History(now.log, t) == History(s.log, t) + Repeat(Asked(t, r), requests)
  }

  lemma SharedStep(s: State, now: State, step: Step, t: Thread, r: nat, requests: nat)
    requires Shared(s, now, t, r, requests) && !step.Clear? && !(step.Settle? && step.run == r)
    ensures Shared(s, After(now, step), t, r, requests + if step == Request(t) then 1 else 0)
  {
    PendingStep(now, step, t, r);
  }

  /** While a run's refresh is pending, every request of the thread shares the run, and nothing else happens in the
      thread: no refresh starts and the promise stays open. */
  lemma {:induction false} RequestsShare(s: State, steps: seq<Step>, t: Thread, r: nat)
    requires Pending(s, t, r) && Quiet(steps, r)
    ensures Shared(s, Steps(s, steps), t, r, Requests(steps, t))
  {
    if steps != [] {
      QuietFront(steps, r);
      RequestsShare(s, steps[..|steps| - 1], t, r);
      SharedStep(s, Steps(s, steps[..|steps| - 1]), steps[|steps| - 1], t, r, Requests(steps[..|steps| - 1], t));
    }
  }

  lemma SettleHistory(s: State, t: Thread, r: nat, ok: bool)
    requires Pending(s, t, r)
    ensures var again := ok && s.runs[r].queued;
      var s' := After(s, Settle(r, ok));
      && Inv(s')
      && (if again then Pending(s', t, r) && !s'.runs[r].queued else t !in s'.states)
      && History(s'.log, t) == History(s.log, t)
        + [Ended(t, r, ok), if again then Started(t, r) else Resolved(t, r, ok)]
  {
    StepKeepsInv(s, Settle(r, ok));
    var again := ok && s.runs[r].queued;
    FilterAppend(Of(t), s.log, [Ended(t, r, ok), if again then Started(t, r) else Resolved(t, r, ok)]);
  }

  /** The round of a run: any number of requests while its refresh is pending, mixed with any steps of other threads,
      then the end of the refresh. If it succeeded and there was a request, exactly one refresh starts, after all the
      requests, and the promise stays open; otherwise the promise is settled at once. */
  lemma {:induction false} Round(s: State, steps: seq<Step>, t: Thread, r: nat, ok: bool)
    requires Pending(s, t, r) && Quiet(steps, r)
    ensures var again := ok && (s.runs[r].queued || Requests(steps, t) > 0);
      var s' := After(Steps(s, steps), Settle(r, ok));
      && Inv(s')
      && (if again then Pending(s', t, r) && !s'.runs[r].queued else t !in s'.states)
      && History(s'.log, t) == History(s.log, t) + Repeat(Asked(t, r), Requests(steps, t))
        + [Ended(t, r, ok), if again then Started(t, r) else Resolved(t, r, ok)]
  {
    RequestsShare(s, steps, t, r);
    SettleHistory(Steps(s, steps), t, r, ok);
  }

  /** Requests that arrive while a successful refresh is pending cause exactly one further refresh, which starts after
      all of them; their shared promise is fulfilled when that refresh ends, and not before. */
  lemma {:induction false} RequestsCoalesce(s: State, steps: seq<Step>, quiet: seq<Step>, t: Thread, r: nat, ok: bool)
    requires Pending(s, t, r) && Quiet(steps, r) && Requests(steps, t) > 0
    requires Quiet(quiet, r) && Requests(quiet, t) == 0
    ensures var middle := After(Steps(s, steps), Settle(r, true));
      var s' := After(Steps(middle, quiet), Settle(r, ok));
      && t !in s'.states
      && History(s'.log, t) == History(s.log, t) + Repeat(Asked(t, r), Requests(steps, t))
        + [Ended(t, r, true), Started(t, r)] + [Ended(t, r, ok), Resolved(t, r, ok)]
  {
    Round(s, steps, t, r, true);
    var middle := After(Steps(s, steps), Settle(r, true));
    Round(middle, quiet, t, r, ok);
    assert Repeat(Asked(t, r), 0) == [];
  }

  // ---- The queue ----

  /** The state object of a thread: `queued`, and its identity, which is that of its promise. */
  class Run {
    const threadId: Thread
    var queued: bool

    constructor (threadId: Thread)
      ensures this.threadId == threadId && !queued
    {
      this.threadId := threadId;
      queued := false;
    }
  }

  // The map of state objects is the map of their numbers.
  ghost predicate Names(states: map<Thread, Run>, runs: seq<Run>, numbers: map<Thread, nat>) {
    && states.Keys == numbers.Keys
    && (forall t | t in states :: numbers[t] < |runs| && states[t] == runs[numbers[t]])
  }

  lemma NamesAdd(states: map<Thread, Run>, runs: seq<Run>, numbers: map<Thread, nat>, t: Thread, run: Run)
    requires Names(states, runs, numbers)
    ensures Names(states[t := run], runs + [run], numbers[t := |runs|])
  {
  }

  ghost predicate AllDifferent(runs: seq<Run>) {
    forall i, j | 0 <= i < j < |runs| :: runs[i] != runs[j]
  }

  lemma DifferentAdd(runs: seq<Run>, run: Run)
    requires AllDifferent(runs) && run !in runs
    ensures AllDifferent(runs + [run])
  {
  }

  lemma NamesRemove(states: map<Thread, Run>, runs: seq<Run>, numbers: map<Thread, nat>, t: Thread)
    requires Names(states, runs, numbers)
    ensures Names(states - {t}, runs, numbers - {t})
  {
  }

  lemma SameRun(states: map<Thread, Run>, runs: seq<Run>, numbers: map<Thread, nat>, t: Thread, r: nat)
    requires Names(states, runs, numbers) && r < |runs| && AllDifferent(runs)
    ensures t in states && states[t] == runs[r] <==> t in numbers && numbers[t] == r
  {
  }

  // What settling does to the runs of the abstract state.
  lemma SettleChanges(s: State, r: nat, ok: bool)
    requires Wf(s) && r < |s.runs| && s.runs[r].busy
    ensures var next := AfterSettle(s, r, ok);
      && next.active == s.active && |next.runs| == |s.runs|
      && (forall i | 0 <= i < |s.runs| && i != r :: next.runs[i] == s.runs[i])
      && next.runs[r].thread == s.runs[r].thread
      && next.runs[r].queued == (s.runs[r].queued && !(ok && s.active))
  {
  }

  /** `now` is the abstract state the fields stand for; only the proofs know it. Runs are numbered by `runs` in the
      order of their creation. */
  class Queue {
    var states: map<Thread, Run>
    var active: bool
    ghost var runs: seq<Run>
    ghost var now: State

    ghost predicate Valid()
      reads this, runs
    {
      && Wf(now) && now.active == active && |now.runs| == |runs| && AllDifferent(runs)
      && (forall i | 0 <= i < |runs| :: Shows(runs[i], now.runs[i]))
      && Names(states, runs, now.states)
    }

    ghost predicate Shows(run: Run, job: Job)
      reads run
    {
      run.threadId == job.thread && run.queued == job.queued
    }

    constructor ()
      ensures Valid() && now == EMPTY && runs == []
    {
      states := map[];
      active := true;
      runs := [];
      now := EMPTY;
    }

    /** `request`: the run returned stands for the promise. A thread with a pending run gets that run back. */
    method Request(threadId: Thread) returns (run: Run)
      requires Valid()
      modifies this, runs
      ensures Valid()
      ensures Wf(old(now)) && now == AfterRequest(old(now), threadId)
      ensures old(runs) <= runs && threadId in states && run == states[threadId]
      ensures threadId in old(states) ==> run == old(states)[threadId]
      ensures threadId !in old(states) ==> run !in old(runs)
    {
      ghost var next := AfterRequest(now, threadId);
      if threadId in states {
        run := states[threadId];
        run.queued := true;
      } else {
        run := new Run(threadId);
        NamesAdd(states, runs, now.states, threadId, run);
        DifferentAdd(runs, run);
        states := states[threadId := run];
        runs := runs + [run];
      }
      now := next;
    }

    /** The awaited refresh of a run settles: the end of one round of its loop, with the `finally` handler if it was the
        last. */
    method Settle(run: Run, ghost r: nat, ok: bool) returns (again: bool)
      requires Valid() && r < |runs| && run == runs[r] && now.runs[r].busy
      modifies this, run
      ensures Valid() && Wf(old(now)) && r < |old(now).runs| && now == AfterSettle(old(now), r, ok)
      ensures runs == old(runs) && again == (ok && old(active) && old(run.queued))
    {
      again := ok && active && run.queued;
      SameRun(states, runs, now.states, run.threadId, r);
      NamesRemove(states, runs, now.states, run.threadId);
      SettleChanges(now, r, ok);
      ghost var next := AfterSettle(now, r, ok);
      if again {
        run.queued := false;
      } else if run.threadId in states && states[run.threadId] == run {
        states := states - {run.threadId};
      }
      now := next;
    }

    method Clear()
      requires Valid()
      modifies this
      ensures Valid() && Wf(old(now)) && now == After(old(now), Step.Clear)
      ensures runs == old(runs)
    {
      active := false;
      states := map[];
      now := After(now, Step.Clear);
    }
  }
}
