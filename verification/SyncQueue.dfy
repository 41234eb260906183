/**
 * The promise chain that serializes the synchronization jobs, with its retry timer. A job may start once
 * the promise that was the tail when it was queued has settled; the event loop picks the interleaving.
 */
module SyncQueue {
  import opened Sums

  /** Catching: the error is recorded, the cleanup after it is still awaited. */
  datatype Phase = Waiting | Working | Catching(error: string) | Settled(outcome: Option<string>)

  datatype Job = Job(after: Option<nat>, phase: Phase)

  datatype State = State(jobs: seq<Job>, tail: Option<nat>, queued: int, pending: bool, running: bool,
                         lastError: Option<string>, lastSuccess: Option<nat>, retryTimer: bool, live: int, fired: nat,
                           order: seq<nat>)

  const EMPTY := State([], None, 0, false, false, None, None, false, 0, 0, [])

  datatype Event =
    | Enqueue
    | Start(job: nat)
    | Succeed(job: nat, now: nat)
    | Fail(job: nat, error: string)
    | Recover(job: nat)
    | Fire

  /** What the event loop may do next. */
  predicate Enabled(s: State, e: Event) {
    match e
    case Enqueue => true
    case Start(k) => k < |s.jobs| && s.jobs[k].phase.Waiting? &&
                     (s.jobs[k].after.Some? ==>
                      s.jobs[k].after.value < |s.jobs| && s.jobs[s.jobs[k].after.value].phase.Settled?)
    case Succeed(k, _) => k < |s.jobs| && s.jobs[k].phase.Working?
    case Fail(k, _) => k < |s.jobs| && s.jobs[k].phase.Working?
    case Recover(k) => k < |s.jobs| && s.jobs[k].phase.Catching?
    case Fire => s.live > 0
  }

  function Queued(s: State): State {
    s.(jobs := s.jobs + [Job(s.tail, Waiting)], tail := Some(|s.jobs|), queued := s.queued + 1,
       pending := s.queued + 1 > 0)
  }

  function Move(s: State, k: nat, phase: Phase): State
    requires k < |s.jobs|
  {
    s.(jobs := s.jobs[k := s.jobs[k].(phase := phase)])
  }

  function Step(s: State, e: Event): State {
    if !Enabled(s, e) then s else
      match e
      case Enqueue => Queued(s)
      case Start(k) =>
        Move(s, k, Working).(queued := s.queued - 1, pending := s.queued - 1 > 0, running := true,
                             order := s.order + [k])
      case Succeed(k, now) =>
        Move(s, k, Settled(None)).(lastError := None, lastSuccess := Some(now), retryTimer := false,
                                   live := if s.retryTimer then s.live - 1 else s.live,
                                   running := false, pending := s.queued > 0)
      case Fail(k, error) => Move(s, k, Catching(error)).(lastError := Some(error))
      case Recover(k) =>
        Move(s, k, Settled(Some(s.jobs[k].phase.error))).(retryTimer := true,
                                                          live := if s.retryTimer then s.live else s.live + 1,
                                                          running := false, pending := s.queued > 0)
      case Fire => Queued(s.(live := s.live - 1, retryTimer := false, fired := s.fired + 1))
  }

  function Run(s: State, events: seq<Event>): State {
    if events == [] then s else Step(Run(s, events[..|events| - 1]), events[|events| - 1])
  }

  /** The module's variables. The chain of promises is the sequence of jobs; ghost fields observe it. */
  class Queue {
    var jobs: seq<Job>
    var tail: Option<nat>
    var queued: int
    var pending: bool
    var running: bool
    var lastError: Option<string>
    var lastSuccess: Option<nat>
    var retryTimer: bool
    var live: int
    ghost var fired: nat
    ghost var order: seq<nat>

    ghost function Now(): State
      reads this
    {
      State(jobs, tail, queued, pending, running, lastError, lastSuccess, retryTimer, live, fired, order)
    }

    constructor ()
      ensures Now() == EMPTY
    {
      jobs, tail, queued, pending, running := [], None, 0, false, false;
      lastError, lastSuccess, retryTimer, live, fired, order := None, None, false, 0, 0, [];
    }

    method EnqueueSync() returns (job: nat)
      modifies this
      ensures Now() == Step(old(Now()), Enqueue) && job == |old(jobs)|
    {
      queued := queued + 1;
      pending := queued > 0;
      job := |jobs|;
      jobs := jobs + [Job(tail, Waiting)];
      tail := Some(job);
    }

    method Begin(k: nat)
      requires Enabled(Now(), Start(k))
      modifies this
      ensures Now() == Step(old(Now()), Start(k))
    {
      queued := queued - 1;
      pending := queued > 0;
      running := true;
      jobs := jobs[k := jobs[k].(phase := Working)];
      order := order + [k];
    }

    method Finish(k: nat, now: nat)
      requires Enabled(Now(), Succeed(k, now))
      modifies this
      ensures Now() == Step(old(Now()), Succeed(k, now))
    {
      lastError := None;
      lastSuccess := Some(now);
      if retryTimer { live := live - 1; }
      retryTimer := false;
      running := false;
      pending := queued > 0;
      jobs := jobs[k := jobs[k].(phase := Settled(None))];
    }

    method Catch(k: nat, error: string)
      requires Enabled(Now(), Fail(k, error))
      modifies this
      ensures Now() == Step(old(Now()), Fail(k, error))
    {
      lastError := Some(error);
      jobs := jobs[k := jobs[k].(phase := Catching(error))];
    }

    method Rethrow(k: nat)
      requires Enabled(Now(), Recover(k))
      modifies this
      ensures Now() == Step(old(Now()), Recover(k))
    {
      if !retryTimer {
        retryTimer := true;
        live := live + 1;
      }
      running := false;
      pending := queued > 0;
      jobs := jobs[k := jobs[k].(phase := Settled(Some(jobs[k].phase.error)))];
    }

    method TimerFires()
      requires Enabled(Now(), Fire)
      modifies this
      ensures Now() == Step(old(Now()), Fire)
    {
      live := live - 1;
      retryTimer := false;
      fired := fired + 1;
      var job := EnqueueSync();
    }
  }

  // ---------- Invariant ----------

  predicate Active(p: Phase) { p.Working? || p.Catching? }

  /** Jobs that have left the queue. */
  function Begun(s: State): int { |s.jobs| - s.queued }

  /** A prefix of the jobs has begun, in order; all of it but its last job has settled. */
  predicate Chain(jobs: seq<Job>, tail: Option<nat>, queued: int, order: seq<nat>) {
    && 0 <= queued <= |jobs|
    && (forall k :: 0 <= k < |jobs| ==> (jobs[k].phase.Waiting? <==> |jobs| - queued <= k))
    && (forall k :: 0 <= k < |jobs| - queued - 1 ==> jobs[k].phase.Settled?)
    && (forall k :: 0 <= k < |jobs| ==> jobs[k].after == if k == 0 then None else Some(k - 1))
    && tail == (if jobs == [] then None else Some(|jobs| - 1))
    && |order| == |jobs| - queued && (forall k :: 0 <= k < |order| ==> order[k] == k)
  }

  predicate Serial(s: State) { Chain(s.jobs, s.tail, s.queued, s.order) }

  /** The error of the latest job that recorded how it went. */
  function LatestOf(begun: seq<Job>): Option<string> {
    if begun == [] then None
    else match begun[|begun| - 1].phase
      case Settled(outcome) => outcome
      case Catching(error) => Some(error)
      case Working => LatestOf(begun[..|begun| - 1])
      case Waiting => LatestOf(begun[..|begun| - 1])
  }

  function Latest(s: State): Option<string>
    requires Serial(s)
  {
    LatestOf(s.jobs[..Begun(s)])
  }

  function Failures(jobs: seq<Job>): nat {
    if jobs == [] then 0 else
      var n := |jobs| - 1;
      Failures(jobs[..n]) + if jobs[n].phase.Settled? && jobs[n].phase.outcome.Some? then 1 else 0
  }

  predicate LastActive(s: State)
    requires Serial(s)
  {
    Begun(s) > 0 && Active(s.jobs[Begun(s) - 1].phase)
  }

  /** How the variables follow the chain: its length, its running job, its latest error and its failures. */
  predicate Follows(s: State, active: bool, latest: Option<string>, failures: nat) {
    && s.pending == (s.queued > 0)
    && s.running == active
    && s.live == (if s.retryTimer then 1 else 0)
    && s.lastError == latest
    && (s.lastError.Some? ==> s.retryTimer || s.queued > 0 || s.running)
    && (s.retryTimer ==> s.lastError.Some?)
    && s.fired + s.live <= failures
  }

  predicate Invariant(s: State) { Serial(s) && Follows(s, LastActive(s), Latest(s), Failures(s.jobs)) }

  lemma {:induction false} FailuresMove(jobs: seq<Job>, k: nat, phase: Phase)
    requires k < |jobs| && !jobs[k].phase.Settled?
    ensures Failures(jobs[k := jobs[k].(phase := phase)]) ==
            Failures(jobs) + if phase.Settled? && phase.outcome.Some? then 1 else 0
  {
    var n := |jobs| - 1;
    var moved := jobs[k := jobs[k].(phase := phase)];
    if k < n {
      assert moved[..n] == jobs[..n][k := jobs[k].(phase := phase)];
      FailuresMove(jobs[..n], k, phase);
    } else {
      assert moved[..n] == jobs[..n];
    }
  }

  lemma FailuresAppend(jobs: seq<Job>, job: Job)
    requires job.phase.Waiting?
    ensures Failures(jobs + [job]) == Failures(jobs)
  {
    assert (jobs + [job])[..|jobs|] == jobs;
  }

  lemma {:induction false} ChainGrows(s: State, t: State)
    requires Serial(s)
    requires t.jobs == s.jobs + [Job(s.tail, Waiting)] && t.tail == Some(|s.jobs|) && t.queued == s.queued + 1 &&
             t.order == s.order
    ensures Serial(t) && Latest(t) == Latest(s) && LastActive(t) == LastActive(s) &&
            Failures(t.jobs) == Failures(s.jobs)
  {
    FailuresAppend(s.jobs, Job(s.tail, Waiting));
    assert t.jobs[..Begun(t)] == s.jobs[..Begun(s)];
  }

  /** Only the first waiting job can start, and only when nothing runs; only the last begun job can be running. */
  lemma OnlyOneCandidate(s: State, e: Event)
    requires Invariant(s) && Enabled(s, e)
    ensures e.Start? ==> e.job == Begun(s) && !s.running
    ensures e.Succeed? || e.Fail? || e.Recover? ==> e.job == Begun(s) - 1 && s.running
  {
    if e.Start? && e.job > 0 { assert s.jobs[e.job].after == Some(e.job - 1); }
  }

  lemma {:induction false} ChainStarts(s: State, t: State)
    requires Serial(s) && s.queued > 0 && !LastActive(s)
    requires t.jobs == s.jobs[Begun(s) := s.jobs[Begun(s)].(phase := Working)] && t.tail == s.tail
    requires t.queued == s.queued - 1 && t.order == s.order + [Begun(s)]
    ensures Serial(t) && Latest(t) == Latest(s) && LastActive(t) && Failures(t.jobs) == Failures(s.jobs)
  {
    assert t.jobs[..Begun(t)][..Begun(s)] == s.jobs[..Begun(s)];
    FailuresMove(s.jobs, Begun(s), Working);
  }

  /** The running job records how it went. */
  lemma {:induction false} ChainRecords(s: State, t: State, phase: Phase)
    requires Serial(s) && LastActive(s) && (phase.Settled? || phase.Catching?)
    requires t.jobs == s.jobs[Begun(s) - 1 := s.jobs[Begun(s) - 1].(phase := phase)] && t.tail == s.tail
    requires t.queued == s.queued && t.order == s.order
    ensures Serial(t) && Latest(t) == (if phase.Settled? then phase.outcome else Some(phase.error)) &&
            LastActive(t) == phase.Catching?
    ensures Failures(t.jobs) == Failures(s.jobs) + if phase.Settled? && phase.outcome.Some? then 1 else 0
  {
    FailuresMove(s.jobs, Begun(s) - 1, phase);
  }

  /** A job that cleans up after an error has recorded it. */
  lemma CatchingIsLatest(s: State)
    requires Serial(s) && LastActive(s) && s.jobs[Begun(s) - 1].phase.Catching?
    ensures Latest(s) == Some(s.jobs[Begun(s) - 1].phase.error)
  {
  }

  lemma StartKeeps(s: State, k: nat)
    requires Invariant(s) && Enabled(s, Start(k))
    ensures Invariant(Step(s, Start(k)))
  {
    OnlyOneCandidate(s, Start(k));
    ChainStarts(s, Step(s, Start(k)));
  }

  lemma SettleKeeps(s: State, e: Event)
    requires Invariant(s) && Enabled(s, e) && (e.Succeed? || e.Fail? || e.Recover?)
    ensures Invariant(Step(s, e))
  {
    OnlyOneCandidate(s, e);
    match e
    case Succeed(k, now) => ChainRecords(s, Step(s, e), Settled(None));
    case Fail(k, error) => ChainRecords(s, Step(s, e), Catching(error));
    case Recover(k) =>
      CatchingIsLatest(s);
      ChainRecords(s, Step(s, e), Settled(Some(s.jobs[k].phase.error)));
  }

  lemma StepKeepsInvariant(s: State, e: Event)
    requires Invariant(s)
    ensures Invariant(Step(s, e))
  {
    if Enabled(s, e) {
      match e
      case Enqueue => ChainGrows(s, Step(s, e));
      case Fire => ChainGrows(s, Step(s, e));
      case Start(k) => StartKeeps(s, k);
      case _ => SettleKeeps(s, e);
    }
  }

  lemma {:induction false} RunKeepsInvariant(events: seq<Event>)
    ensures Invariant(Run(EMPTY, events))
  {
    if events != [] {
      RunKeepsInvariant(events[..|events| - 1]);
      StepKeepsInvariant(Run(EMPTY, events[..|events| - 1]), events[|events| - 1]);
    }
  }

  // ---------- What every interleaving promises ----------

  lemma ActiveIsLast(s: State, i: nat)
    requires Invariant(s) && i < |s.jobs| && Active(s.jobs[i].phase)
    ensures i == Begun(s) - 1 && s.running
  {
  }

  /** Jobs run one at a time, in the order they were queued. */
  lemma OneAtATimeInOrder(events: seq<Event>)
    ensures var s := Run(EMPTY, events);
            (forall i, j ::
               0 <= i < |s.jobs| && 0 <= j < |s.jobs| && Active(s.jobs[i].phase) && Active(s.jobs[j].phase) ==>
                 i == j) &&
            (forall i :: 0 <= i < |s.order| ==> s.order[i] == i) &&
            (s.running <==> exists i :: 0 <= i < |s.jobs| && Active(s.jobs[i].phase))
  {
    RunKeepsInvariant(events);
    var s := Run(EMPTY, events);
    forall i | 0 <= i < |s.jobs| && Active(s.jobs[i].phase)
      ensures i == Begun(s) - 1 && s.running
    {
      ActiveIsLast(s, i);
    }
  }

  /** The status tells the truth, and a recorded error is always on its way to another attempt, by a single timer. */
  lemma ErrorsAreRetried(events: seq<Event>)
    ensures var s := Run(EMPTY, events);
            Serial(s) && s.lastError == Latest(s) && s.pending == (s.queued > 0) && 0 <= s.live <= 1 &&
            (s.lastError.Some? ==> s.live == 1 || s.pending || s.running) &&
            (s.live > 0 ==> s.lastError.Some?) && s.fired <= Failures(s.jobs)
  {
    RunKeepsInvariant(events);
  }

  /** A success leaves no retry behind it. */
  lemma SuccessDisarms(events: seq<Event>, k: nat, now: nat)
    requires Enabled(Run(EMPTY, events), Succeed(k, now))
    ensures var s := Run(EMPTY, events + [Succeed(k, now)]); s.live == 0 && s.lastError == None && !s.running
  {
    var all := events + [Succeed(k, now)];
    assert all[..|all| - 1] == events;
    RunKeepsInvariant(all);
  }

  /** When the latest success of a run happened. */
  function LatestSuccess(events: seq<Event>): Option<nat> {
    if events == [] then None else
      var n := |events| - 1;
      if events[n].Succeed? && Enabled(Run(EMPTY, events[..n]), events[n]) then Some(events[n].now)
      else LatestSuccess(events[..n])
  }

  lemma StepSuccess(s: State, e: Event)
    ensures Step(s, e).lastSuccess == if e.Succeed? && Enabled(s, e) then Some(e.now) else s.lastSuccess
  {
  }

  lemma {:induction false} SuccessIsRecorded(events: seq<Event>)
    ensures Run(EMPTY, events).lastSuccess == LatestSuccess(events)
  {
    if events != [] {
      var front, last := events[..|events| - 1], events[|events| - 1];
      SuccessIsRecorded(front);
      StepSuccess(Run(EMPTY, front), last);
    }
  }

  /** The event loop is never stuck: while a job is queued, running or due for a retry, some event can happen. */
  lemma NeverStuck(events: seq<Event>)
    ensures var s := Run(EMPTY, events);
            s.queued > 0 || s.running || s.lastError.Some? ==> exists e :: Enabled(s, e) && !e.Enqueue?
  {
    RunKeepsInvariant(events);
    var s := Run(EMPTY, events);
    if s.running {
      RunningMoves(s);
    } else if s.queued > 0 {
      QueuedStarts(s);
    } else if s.lastError.Some? {
      assert Enabled(s, Fire);
    }
  }

  lemma QueuedStarts(s: State)
    requires Serial(s) && !LastActive(s) && s.queued > 0
    ensures exists e :: Enabled(s, e) && !e.Enqueue?
  {
    var k := Begun(s);
    if k > 0 { assert s.jobs[k].after == Some(k - 1) && s.jobs[k - 1].phase.Settled?; }
    assert Enabled(s, Start(k));
  }

  lemma RunningMoves(s: State)
    requires Serial(s) && LastActive(s)
    ensures exists e :: Enabled(s, e) && !e.Enqueue?
  {
    var k := Begun(s) - 1;
    if s.jobs[k].phase.Working? { assert Enabled(s, Succeed(k, 0)); } else { assert Enabled(s, Recover(k)); }
  }
}
