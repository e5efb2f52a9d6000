/** Client storage kept on the server: each write changes the memory copy at once and joins a chain of requests that are
    sent one at a time, each retried until the server answers with success or a 4xx status. */
module StorageQueue {
  import opened Common

  type Store = map<string, string>

  // `value == None` removes the key.
  datatype Write = Write(key: string, value: Option<string>)

  // The answer to one attempt. A failure other than 4xx may have been applied by the server.
  datatype Answer = Ok | Rejected | Failed(applied: bool)

  // How a write left the chain; `late` tells whether an earlier attempt of a rejected write had been applied.
  datatype Fate = Delivered | Refused(late: bool)
  datatype Done = Done(write: Write, fate: Fate)

  datatype State = State(
    memory: Store,
    server: Store,
    pending: seq<Write>,
    headApplied: bool,
    retryDelay: nat,
    finished: seq<Done>)

  datatype Step = Issue(write: Write) | Attempt(answer: Answer)

  const RETRY_DELAY_MS := 250
  const MAX_RETRY_DELAY_MS := 5000

  // ---- Stores ----

  function Apply(store: Store, write: Write): Store {
    if write.value.Some? then store[write.key := write.value.value] else store - {write.key}
  }

  function Replay(store: Store, writes: seq<Write>): Store {
    if writes == [] then store else Apply(Replay(store, writes[..|writes| - 1]), writes[|writes| - 1])
  }

  function Lookup(store: Store, key: string): Option<string> {
    if key in store then Some(store[key]) else None
  }

  // ---- Steps ----

  function Start(entries: Store): State {
    State(entries, entries, [], false, RETRY_DELAY_MS, [])
  }

  // The head leaves the chain and the next write starts with a fresh delay.
  function Finish(s: State, fate: Fate): State
    requires s.pending != []
  {
    s.(pending := s.pending[1..], headApplied := false, retryDelay := RETRY_DELAY_MS,
      finished := s.finished + [Done(s.pending[0], fate)])
  }

  function NextDelay(delay: nat): nat {
    if delay * 2 <= MAX_RETRY_DELAY_MS then delay * 2 else MAX_RETRY_DELAY_MS
  }

  function After(s: State, step: Step): State {
    match step
    case Issue(write) => s.(memory := Apply(s.memory, write), pending := s.pending + [write])
    case Attempt(answer) =>
      if s.pending == [] then s
      else
        match answer
        case Ok => Finish(s.(server := Apply(s.server, s.pending[0])), Delivered)
        case Rejected => Finish(s, Refused(s.headApplied))
        case Failed(applied) =>
          s.(server := if applied then Apply(s.server, s.pending[0]) else s.server,
            headApplied := s.headApplied || applied, retryDelay := NextDelay(s.retryDelay))
  }

  function Run(entries: Store, steps: seq<Step>): State {
    if steps == [] then Start(entries) else After(Run(entries, steps[..|steps| - 1]), steps[|steps| - 1])
  }

  // ---- Histories ----

  // The writes that count: those delivered and, when `late` is asked for, those refused after having been applied.
  function Kept(finished: seq<Done>, late: bool): seq<Write> {
    if finished == [] then []
    else
      var last := finished[|finished| - 1];
      var kept := Kept(finished[..|finished| - 1], late);
      if last.fate == Delivered || (late && last.fate == Refused(true)) then kept + [last.write] else kept
  }

  function Writes(finished: seq<Done>): seq<Write> {
    seq(|finished|, i requires 0 <= i < |finished| => finished[i].write)
  }

  function Issued(steps: seq<Step>): seq<Write> {
    if steps == [] then []
    else
      var last := steps[|steps| - 1];
      Issued(steps[..|steps| - 1]) + (if last.Issue? then [last.write] else [])
  }

  // The store with the head, if one of its attempts was applied without being acknowledged.
  function WithHead(store: Store, s: State): Store {
    if s.headApplied && s.pending != [] then Apply(store, s.pending[0]) else store
  }

  // ---- Lemmas about replay ----

  lemma {:induction false} ReplayPush(store: Store, writes: seq<Write>, write: Write)
    ensures Replay(store, writes + [write]) == Apply(Replay(store, writes), write)
  {
    assert (writes + [write])[..|writes|] == writes;
  }

  lemma {:induction false} KeptPush(finished: seq<Done>, done: Done, late: bool)
    ensures Kept(finished + [done], late) == Kept(finished, late)
      + if done.fate == Delivered || (late && done.fate == Refused(true)) then [done.write] else []
  {
    assert (finished + [done])[..|finished|] == finished;
  }

  lemma ApplyTwice(store: Store, write: Write)
    ensures Apply(Apply(store, write), write) == Apply(store, write)
  {
  }

  // ---- Order ----

  /** Writes leave the chain in the order they were issued and none is lost, duplicated or overtaken: finished and
      pending writes together are the issued ones. The memory copy is the replay of all of them. */
  lemma {:induction false} ChainKeepsOrder(entries: Store, steps: seq<Step>)
    ensures var s := Run(entries, steps);
      Writes(s.finished) + s.pending == Issued(steps) && s.memory == Replay(entries, Issued(steps))
  {
    if steps != [] {
      ChainKeepsOrder(entries, steps[..|steps| - 1]);
      OrderStep(Run(entries, steps[..|steps| - 1]), steps[|steps| - 1]);
      ReplayIssued(entries, steps);
    }
  }

  lemma OrderStep(s: State, step: Step)
    ensures Writes(After(s, step).finished) + After(s, step).pending
      == Writes(s.finished) + s.pending + if step.Issue? then [step.write] else []
  {
    if step.Attempt? && s.pending != [] && !step.answer.Failed? {
      assert Writes(After(s, step).finished) == Writes(s.finished) + [s.pending[0]];
      assert [s.pending[0]] + s.pending[1..] == s.pending;
    }
  }

  lemma ReplayIssued(entries: Store, steps: seq<Step>)
    requires steps != []
    ensures var before := Replay(entries, Issued(steps[..|steps| - 1]));
      var last := steps[|steps| - 1];
      Replay(entries, Issued(steps)) == if last.Issue? then Apply(before, last.write) else before
  {
    var last := steps[|steps| - 1];
    if last.Issue? {
      ReplayPush(entries, Issued(steps[..|steps| - 1]), last.write);
    } else {
      assert Issued(steps) == Issued(steps[..|steps| - 1]);
    }
  }

  // ---- The server's contents ----

  ghost predicate ServerIsReplay(entries: Store, s: State) {
    s.server == WithHead(Replay(entries, Kept(s.finished, true)), s) && (s.headApplied ==> s.pending != [])
  }

  lemma StepKeepsReplay(entries: Store, s: State, step: Step)
    requires ServerIsReplay(entries, s)
    ensures ServerIsReplay(entries, After(s, step))
  {
    if step.Attempt? && s.pending != [] {
      var kept, head := Kept(s.finished, true), s.pending[0];
      if step.answer.Failed? {
        ApplyTwice(Replay(entries, kept), head);
      } else {
        LeavingReplays(entries, s, step.answer);
      }
    }
  }

  lemma LeavingReplays(entries: Store, s: State, answer: Answer)
    requires ServerIsReplay(entries, s) && s.pending != [] && !answer.Failed?
    ensures ServerIsReplay(entries, After(s, Attempt(answer)))
  {
    var kept, head := Kept(s.finished, true), s.pending[0];
    ReplayPush(entries, kept, head);
    if answer.Ok? {
      ApplyTwice(Replay(entries, kept), head);
      KeptPush(s.finished, Done(head, Delivered), true);
    } else {
      KeptPush(s.finished, Done(head, Refused(s.headApplied)), true);
      assert kept + [] == kept;
    }
  }

  /** In every run, under any pattern of failures, the server holds the initial store with a prefix of the issued
      writes replayed: those that left the chain, except the ones refused without ever having been applied, and the
      head if one of its unacknowledged attempts was applied. */
  lemma {:induction false} ServerReplaysPrefix(entries: Store, steps: seq<Step>)
    ensures ServerIsReplay(entries, Run(entries, steps))
  {
    if steps != [] {
      ServerReplaysPrefix(entries, steps[..|steps| - 1]);
      StepKeepsReplay(entries, Run(entries, steps[..|steps| - 1]), steps[|steps| - 1]);
    }
  }

  // ---- When refused writes really are omitted ----

  // The server holds the prefix with every refused write omitted.
  ghost predicate OmitsRefused(entries: Store, s: State) {
    s.server == WithHead(Replay(entries, Kept(s.finished, false)), s)
  }

  // The step refuses a write that an earlier attempt had applied, and that write had changed the store.
  ghost predicate RefusesChange(entries: Store, s: State, step: Step) {
    && step == Attempt(Rejected) && s.pending != [] && s.headApplied
    && Lookup(Replay(entries, Kept(s.finished, false)), s.pending[0].key) != s.pending[0].value
  }

  lemma NoChange(store: Store, write: Write)
    ensures Apply(store, write) == store <==> Lookup(store, write.key) == write.value
  {
    if Lookup(store, write.key) == write.value {
      assert Apply(store, write) == store;
    } else {
      assert Lookup(Apply(store, write), write.key) == write.value;
    }
  }

  lemma OmitsStep(entries: Store, s: State, step: Step)
    requires OmitsRefused(entries, s) && (s.headApplied ==> s.pending != [])
    ensures OmitsRefused(entries, After(s, step)) <==> !RefusesChange(entries, s, step)
  {
    if step.Issue? || s.pending == [] {
    } else if step.answer.Rejected? {
      OmitsRejected(entries, s);
    } else {
      OmitsApplied(entries, s, step.answer);
    }
  }

  lemma OmitsApplied(entries: Store, s: State, answer: Answer)
    requires OmitsRefused(entries, s) && s.pending != [] && !answer.Rejected?
    ensures OmitsRefused(entries, After(s, Attempt(answer)))
  {
    var kept, head := Kept(s.finished, false), s.pending[0];
    ReplayPush(entries, kept, head);
    ApplyTwice(Replay(entries, kept), head);
    KeptPush(s.finished, Done(head, Delivered), false);
  }

  lemma OmitsRejected(entries: Store, s: State)
    requires OmitsRefused(entries, s) && s.pending != []
    ensures OmitsRefused(entries, After(s, Attempt(Rejected))) <==> !RefusesChange(entries, s, Attempt(Rejected))
  {
    var kept, head := Kept(s.finished, false), s.pending[0];
    KeptPush(s.finished, Done(head, Refused(s.headApplied)), false);
    assert kept + [] == kept;
    NoChange(Replay(entries, kept), head);
  }

  ghost predicate AlwaysOmits(entries: Store, steps: seq<Step>) {
    forall n: nat | n <= |steps| :: OmitsRefused(entries, Run(entries, steps[..n]))
  }

  ghost predicate NeverRefusesChange(entries: Store, steps: seq<Step>) {
    forall n: nat | n < |steps| :: !RefusesChange(entries, Run(entries, steps[..n]), steps[n])
  }

  lemma {:induction false} RunPush(entries: Store, steps: seq<Step>, n: nat)
    requires n < |steps|
    ensures Run(entries, steps[..n + 1]) == After(Run(entries, steps[..n]), steps[n])
  {
    assert steps[..n + 1][..n] == steps[..n];
  }

  /** The server omits every refused write at every moment of a run exactly when no step of the run refuses a write
      that an earlier, unacknowledged attempt had applied and that was not already in the store. */
  lemma OmitsIffNoLateRefusal(entries: Store, steps: seq<Step>)
    ensures AlwaysOmits(entries, steps) <==> NeverRefusesChange(entries, steps)
  {
    if AlwaysOmits(entries, steps) {
      forall n: nat | n < |steps| ensures !RefusesChange(entries, Run(entries, steps[..n]), steps[n]) {
        RunPush(entries, steps, n);
        ServerReplaysPrefix(entries, steps[..n]);
        OmitsStep(entries, Run(entries, steps[..n]), steps[n]);
      }
    }
    if NeverRefusesChange(entries, steps) {
      forall n: nat | n <= |steps| ensures OmitsRefused(entries, Run(entries, steps[..n])) {
        OmitsUpTo(entries, steps, n);
      }
    }
  }

  lemma {:induction false} OmitsUpTo(entries: Store, steps: seq<Step>, n: nat)
    requires NeverRefusesChange(entries, steps) && n <= |steps|
    ensures OmitsRefused(entries, Run(entries, steps[..n]))
  {
    if n > 0 {
      OmitsUpTo(entries, steps, n - 1);
      RunPush(entries, steps, n - 1);
      ServerReplaysPrefix(entries, steps[..n - 1]);
      OmitsStep(entries, Run(entries, steps[..n - 1]), steps[n - 1]);
    }
  }

  /** A write applied without acknowledgement and then refused on its retry stays on the server. */
  lemma LateRefusalStays()
    ensures var steps := [Issue(Write("k", Some("v"))), Attempt(Failed(true)), Attempt(Rejected)];
      Run(map[], steps).finished == [Done(Write("k", Some("v")), Refused(true))]
      && Run(map[], steps).pending == []
      && Run(map[], steps).server == map["k" := "v"] != Replay(map[], Kept(Run(map[], steps).finished, false))
  {
    var steps := [Issue(Write("k", Some("v"))), Attempt(Failed(true)), Attempt(Rejected)];
    var write := Write("k", Some("v"));
    RunPush(map[], steps, 0);
    RunPush(map[], steps, 1);
    RunPush(map[], steps, 2);
    assert steps[..0] == [] && steps[..3] == steps;
    assert Run(map[], steps[..1]).pending == [write];
    KeptPush([], Done(write, Refused(true)), false);
    assert [] + [Done(write, Refused(true))] == [Done(write, Refused(true))];
    assert Kept([Done(write, Refused(true))], false) == [];
    assert "k" in map["k" := "v"] && "k" !in Replay(map[], []);
  }

  // ---- Draining ----

  /** Once the chain has drained, the server and the memory copy agree on every key whose last write was delivered,
      and on every key that was never written. */
  lemma {:induction false} DrainedAgrees(entries: Store, steps: seq<Step>, key: string)
    requires Run(entries, steps).pending == []
    requires LastDelivered(Run(entries, steps).finished, key)
    ensures Lookup(Run(entries, steps).server, key) == Lookup(Run(entries, steps).memory, key)
  {
    var s := Run(entries, steps);
    ChainKeepsOrder(entries, steps);
    ServerReplaysPrefix(entries, steps);
    assert Writes(s.finished) + [] == Writes(s.finished);
    LastDeliveredAgrees(entries, s.finished, key);
  }

  predicate LastDelivered(finished: seq<Done>, key: string) {
    finished != [] ==>
      var last := finished[|finished| - 1];
      if last.write.key == key then last.fate == Delivered
      else LastDelivered(finished[..|finished| - 1], key)
  }

  lemma {:induction false} LastDeliveredAgrees(entries: Store, finished: seq<Done>, key: string)
    requires LastDelivered(finished, key)
    ensures Lookup(Replay(entries, Kept(finished, true)), key) == Lookup(Replay(entries, Writes(finished)), key)
  {
    if finished != [] {
      var front, last := finished[..|finished| - 1], finished[|finished| - 1];
      assert front + [last] == finished;
      assert Writes(finished) == Writes(front) + [last.write];
      ReplayPush(entries, Writes(front), last.write);
      ReplayPush(entries, Kept(front, true), last.write);
      if last.write.key != key {
        LastDeliveredAgrees(entries, front, key);
      }
    }
  }

  /** When the chain drains and no write was refused, the server holds exactly the memory copy. */
  lemma {:induction false} DrainedIsMemory(entries: Store, steps: seq<Step>)
    requires Run(entries, steps).pending == []
    requires forall i | 0 <= i < |Run(entries, steps).finished| :: Run(entries, steps).finished[i].fate == Delivered
    ensures Run(entries, steps).server == Run(entries, steps).memory
  {
    var s := Run(entries, steps);
    ChainKeepsOrder(entries, steps);
    ServerReplaysPrefix(entries, steps);
    AllKept(s.finished);
    assert Writes(s.finished) + [] == Writes(s.finished);
  }

  lemma {:induction false} AllKept(finished: seq<Done>)
    requires forall i | 0 <= i < |finished| :: finished[i].fate == Delivered
    ensures Kept(finished, true) == Writes(finished)
  {
    if finished != [] {
      AllKept(finished[..|finished| - 1]);
      assert Writes(finished) == Writes(finished[..|finished| - 1]) + [finished[|finished| - 1].write];
    }
  }

  // ---- Retrying ----

  function Doubled(n: nat): nat {
    if n == 0 then 1 else 2 * Doubled(n - 1)
  }

  /** After n failures of the same write in a row the next delay is 250 ms doubled n times, capped at 5 s. */
  lemma {:induction false} BackoffDoubles(s: State, failures: seq<Step>)
    requires s.pending != [] && s.retryDelay == RETRY_DELAY_MS
    requires forall i | 0 <= i < |failures| :: failures[i].Attempt? && failures[i].answer.Failed?
    ensures Steps(s, failures).pending == s.pending
    ensures var doubled := RETRY_DELAY_MS * Doubled(|failures|);
      Steps(s, failures).retryDelay == if doubled <= MAX_RETRY_DELAY_MS then doubled else MAX_RETRY_DELAY_MS
  {
    if failures != [] {
      BackoffDoubles(s, failures[..|failures| - 1]);
    }
  }

  function Steps(s: State, steps: seq<Step>): State {
    if steps == [] then s else After(Steps(s, steps[..|steps| - 1]), steps[|steps| - 1])
  }

  // ---- The module ----

  /** The module's state and the server's. `finished` and `headApplied` are known to nobody but the proofs. */
  class Client {
    var memoryStorage: Store
    var storageWrite: seq<Write>
    var retryDelay: nat
    ghost var server: Store
    ghost var headApplied: bool
    ghost var finished: seq<Done>

    ghost function Now(): State
      reads this
    {
      State(memoryStorage, server, storageWrite, headApplied, retryDelay, finished)
    }

    /** `initializeTaskboardStorage` without a usable local storage. */
    constructor (entries: Store)
      ensures Now() == Start(entries)
    {
      memoryStorage := entries;
      server := entries;
      storageWrite := [];
      headApplied := false;
      retryDelay := RETRY_DELAY_MS;
      finished := [];
    }

    method SetItem(key: string, value: string)
      modifies this
      ensures Now() == After(old(Now()), Issue(Write(key, Some(value))))
    {
      memoryStorage := memoryStorage[key := value];
      Persist(key, Some(value));
    }

    method RemoveItem(key: string)
      modifies this
      ensures Now() == After(old(Now()), Issue(Write(key, None)))
    {
      memoryStorage := memoryStorage - {key};
      Persist(key, None);
    }

    method Persist(key: string, value: Option<string>)
      modifies this`storageWrite
      ensures storageWrite == old(storageWrite) + [Write(key, value)]
    {
      storageWrite := storageWrite + [Write(key, value)];
    }

    /** Rounds of the request loop, one for each answer, until the head leaves the chain or the answers run out. */
    method Send(answers: seq<Answer>) returns (used: nat)
      requires storageWrite != []
      modifies this
      ensures used <= |answers|
      ensures Now() == Steps(old(Now()), Attempts(answers[..used]))
      ensures used < |answers| ==> |storageWrite| == |old(storageWrite)| - 1
      ensures forall i | 0 <= i < used - 1 :: answers[i].Failed?
    {
      ghost var before := Now();
      used := 0;
      assert answers[..0] == [];
      while used < |answers|
        invariant used <= |answers| && storageWrite == old(storageWrite)
        invariant forall i | 0 <= i < used :: answers[i].Failed?
        invariant Now() == Steps(before, Attempts(answers[..used]))
      {
        var answer := answers[used];
        StepsPush(before, answers, used);
        used := used + 1;
        match answer {
          case Ok =>
            server := Apply(server, storageWrite[0]);
            Leave(Delivered);
            return;
          case Rejected =>
            Leave(Refused(headApplied));
            return;
          case Failed(applied) =>
            server := if applied then Apply(server, storageWrite[0]) else server;
            headApplied := headApplied || applied;
            retryDelay := if retryDelay * 2 <= MAX_RETRY_DELAY_MS then retryDelay * 2 else MAX_RETRY_DELAY_MS;
        }
      }
    }

    method Leave(ghost fate: Fate)
      requires storageWrite != []
      modifies this
      ensures Now() == Finish(old(Now()), fate)
    {
      finished := finished + [Done(storageWrite[0], fate)];
      storageWrite := storageWrite[1..];
      headApplied := false;
      retryDelay := RETRY_DELAY_MS;
    }
  }

  function Attempts(answers: seq<Answer>): seq<Step> {
    seq(|answers|, i requires 0 <= i < |answers| => Attempt(answers[i]))
  }

  lemma {:induction false} StepsPush(s: State, answers: seq<Answer>, n: nat)
    requires n < |answers|
    ensures Steps(s, Attempts(answers[..n + 1])) == After(Steps(s, Attempts(answers[..n])), Attempt(answers[n]))
  {
    assert Attempts(answers[..n + 1])[..n] == Attempts(answers[..n]);
  }
}
