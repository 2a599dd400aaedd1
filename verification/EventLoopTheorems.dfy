/** What the order of the event loop adds: how long a waiter of the barrier waits when the loop keeps
    up, and the exact configurations under which the barrier's size limit means what it says. */
module EventLoopTheorems {
  import opened Admission
  import opened Barrier
  import opened Gateway
  import opened GatewayTheorems
  import opened GatewayTiming
  import opened EventLoop
  import opened Tally

  // ----- a loop that keeps up -----

  /** Time passes only while nothing is ready, and not past the deadline of a timer. */
  ghost predicate KeepsUp(c: Config, ts: seq<Turn>)
    requires IsLoopRun(c, ts)
  {
    ts == [] ||
    (KeepsUp(c, ts[..|ts| - 1]) &&
     (ts[|ts| - 1].Passes? ==> Idle(LoopState(c, ts[..|ts| - 1]), ts[|ts| - 1].dt)))
  }

  ghost predicate Idle(s: Loop, dt: real) {
    && s.ready == []
    && forall g | g in s.gw.bar.timers && s.gw.bar.timers[g].Sleeping? :: s.gw.now + dt <= s.gw.bar.timers[g].deadline
  }

  lemma PromptGoesOn(c: Config, ls: seq<Label>, l: Label, ls': seq<Label>)
    requires PromptRun(c, ls) && Enabled(State(c, ls), l) && ls' == ls + [l]
    requires l.Tick? ==> OnTime(State(c, ls), l.dt)
    ensures PromptRun(c, ls')
  {
    Extend(c, ls, l);
    assert ls'[..|ls'| - 1] == ls;
  }

  lemma IdleIsOnTime(s: Loop, dt: real)
    requires Covered(s) && Idle(s, dt)
    ensures OnTime(s.gw, dt)
  {
  }

  /** A turn is at most one label, and that one is on time. */
  lemma LabelsOnTime(s: Loop, t: Turn, l: Label)
    requires Covered(s) && CanTurn(s, t) && (t.Passes? ==> Idle(s, t.dt)) && l in LabelsOf(t)
    ensures LabelsOf(t) == [l] && Enabled(s.gw, l) && (l.Tick? ==> OnTime(s.gw, l.dt))
  {
    if t.Passes? {
      IdleIsOnTime(s, t.dt);
    }
  }

  lemma {:induction false} KeepingUpIsPrompt(c: Config, ts: seq<Turn>)
    requires IsLoopRun(c, ts) && KeepsUp(c, ts)
    ensures PromptRun(c, Labels(ts))
  {
    if ts != [] {
      var before := ts[..|ts| - 1];
      KeepingUpIsPrompt(c, before);
      LoopRefinesGateway(c, before);
      NothingIsForgotten(c, before);
      var ls, ls', more := Labels(before), Labels(ts), LabelsOf(ts[|ts| - 1]);
      if more == [] {
        assert ls' == ls;
      } else {
        LabelsOnTime(LoopState(c, before), ts[|ts| - 1], more[0]);
        PromptGoesOn(c, ls, more[0], ls');
      }
    }
  }

  /** On a loop that keeps up nobody waits in the barrier longer than the window. */
  lemma {:induction false} LoopWaitIsBounded(c: Config, ts: seq<Turn>)
    requires c.window >= 0.0 && IsLoopRun(c, ts) && KeepsUp(c, ts)
    ensures var s := LoopState(c, ts).gw;
      && (forall id | id in s.phase && (s.phase[id].InBarrier? || s.phase[id].Dispatched?) ::
            s.now - s.phase[id].t0 <= c.window)
      && (forall b | b in s.bar.batches :: forall e | e in b.entries :: b.at - e.t0 <= c.window)
  {
    KeepingUpIsPrompt(c, ts);
    LoopRefinesGateway(c, ts);
    WaitIsBounded(c, Labels(ts));
  }

  // ----- a flush task finds a full list, or an empty one that stays empty -----

  /** A job wakes a waiter that can proceed. */
  predicate Releases(job: Job, phase: map<nat, Phase>) {
    job.WakeTask? && job.id in phase && phase[job.id].Dispatched?
  }

  ghost predicate NoReleaseBeforeFlush(ready: seq<Job>, phase: map<nat, Phase>) {
    forall j, k | 0 <= j < k < |ready| && ready[k] == FlushTask :: !Releases(ready[j], phase)
  }

  /** While a flush task is on the list no permit is to be had: they are all with requests that were in the
      barrier when the task was created, and none of those proceeds before it. */
  ghost predicate FlushSoon(c: Config, s: Loop) {
    FlushTask in s.ready ==>
      && Permits(s.gw.lim.sem) == 0
      && (s.gw.bar.pending == [] || |s.gw.bar.pending| >= c.batchMax)
      && (forall id | id in s.gw.phase :: !s.gw.phase[id].StreamReady? && !s.gw.phase[id].Upstream?)
      && NoReleaseBeforeFlush(s.ready, s.gw.phase)
  }

  /** A waiter whose event was set is not waiting any more. */
  ghost predicate WokenLeft(s: Loop) {
    forall id: nat | WakeTask(id) in s.ready :: id in s.gw.phase && !s.gw.phase[id].InBarrier?
  }

  lemma MadeWakes(ready: seq<Job>, gw: Gw, gw': Gw, id: nat)
    requires WakeTask(id) in MadeReady(ready, gw, gw')
    ensures id in gw'.phase && gw'.phase[id].Dispatched?
  {
    ResumedIsResumptions(gw.lim.sem.waiters, gw'.lim.sem.waiters);
    WokenIsWakeups(ready, gw.bar.pending, gw.phase, gw'.phase);
  }

  lemma WokenAfterRun(c: Config, s: Loop, l: Label, id: nat)
    requires WokenLeft(s) && Inv(c, s.gw) && CanTurn(s, Runs(l)) && WakeTask(id) in Turned(c, s, Runs(l)).ready
    ensures id in Next(c, s.gw, l).phase && !Next(c, s.gw, l).phase[id].InBarrier?
  {
    if WakeTask(id) in s.ready {
      StaysLeft(c, s.gw, l, id);
    } else {
      MadeWakes(s.ready[1..], s.gw, Next(c, s.gw, l), id);
    }
  }

  lemma {:induction false} WokenStayLeft(c: Config, s: Loop, t: Turn)
    requires WokenLeft(s) && Inv(c, s.gw) && CanTurn(s, t)
    ensures WokenLeft(Turned(c, s, t))
  {
    match t
    case Runs(l) =>
      forall id: nat | WakeTask(id) in Turned(c, s, t).ready
        ensures id in Turned(c, s, t).gw.phase && !Turned(c, s, t).gw.phase[id].InBarrier?
      {
        WokenAfterRun(c, s, l, id);
      }
    case Becomes(job) =>
    case Skips =>
    case Passes(_) =>
  }

  lemma StaysLeft(c: Config, gw: Gw, l: Label, id: nat)
    requires Inv(c, gw) && Enabled(gw, l) && id in gw.phase && !gw.phase[id].InBarrier?
    ensures id in Next(c, gw, l).phase && !Next(c, gw, l).phase[id].InBarrier?
    ensures Next(c, gw, l).phase[id].Dispatched? ==> gw.phase[id].Dispatched?
  {
    if l.ResumeQueued? {
      FreshAfterLeaving(gw.lim, gw.phase.Keys, gw.next, l.id);
    }
  }

  /** When the pending entries are as many as the permits, every permit is with one of them. */
  lemma FullMeansAll(c: Config, gw: Gw)
    requires Inv(c, gw) && |gw.bar.pending| >= c.maxConcurrency
    ensures Permits(gw.lim.sem) == 0
    ensures forall id | id in gw.phase :: gw.phase[id].InBarrier? || gw.phase[id].CancelledInBarrier? || gw.phase[id].Finished?
  {
    PendingDistinct(Released(gw.bar.batches), gw.bar.pending);
    PendingFits(c, gw);
    var held := Those(gw.phase, Unreturned);
    forall id | id in held ensures Pends(gw.bar.pending, id) {
      if !Pends(gw.bar.pending, id) {
        DistinctFit(gw.bar.pending, held - {id});
      }
    }
    forall id | id in gw.phase && Unreturned(gw.phase[id])
      ensures gw.phase[id].InBarrier? || gw.phase[id].CancelledInBarrier?
    {
      assert id in held;
    }
  }

  /** Without a permit to be had, nobody enters, and only a release could change that. */
  lemma NobodyEnters(c: Config, gw: Gw, l: Label)
    requires Inv(c, gw) && Enabled(gw, l) && Permits(gw.lim.sem) == 0
    requires !l.Finish? && !l.ResponseFails?
    ensures var gw' := Next(c, gw, l);
      && Permits(gw'.lim.sem) == 0
      && (gw'.bar.pending == gw.bar.pending || gw'.bar.pending == [])
      && gw'.bar.flushTasks <= gw.bar.flushTasks
  {
    var cap := GatewayCapacity(c.queueSize);
    match l
    case NewRequest => StepKeeps(gw.lim, Arrival(gw.next), cap);
    case QueueTimeout(id) => StepKeeps(gw.lim, Timeout(id), cap);
    case QueueCancel(id) => StepKeeps(gw.lim, Cancel(id), cap);
    case ResumeQueued(id) => StepKeeps(gw.lim, Resumption(id), cap);
    case _ =>
  }

  lemma NoFlushAmongOthers(ready: seq<Job>, gw: Gw, gw': Gw)
    ensures FlushTask in MadeReady(ready, gw, gw') <==> gw'.bar.flushTasks > gw.bar.flushTasks
  {
    ResumedIsResumptions(gw.lim.sem.waiters, gw'.lim.sem.waiters);
    WokenIsWakeups(ready, gw.bar.pending, gw.phase, gw'.phase);
  }

  /** The labels a job can do while a flush task waits behind it, or is it. */
  lemma NoReleaseYet(c: Config, s: Loop, l: Label)
    requires FlushSoon(c, s) && CanTurn(s, Runs(l)) && FlushTask in s.ready
    ensures !l.Finish? && !l.ResponseFails? && !l.Proceed? && !l.StreamStarts? && !l.StreamDropped?
  {
    if s.ready[0] != FlushTask {
      var k :| 0 <= k < |s.ready| && s.ready[k] == FlushTask;
      assert !Releases(s.ready[0], s.gw.phase);
    }
  }

  lemma OrderKept(c: Config, s: Loop, l: Label)
    requires FlushSoon(c, s) && WokenLeft(s) && Inv(c, s.gw) && CanTurn(s, Runs(l)) && FlushTask in s.ready
    requires Next(c, s.gw, l).bar.flushTasks <= s.gw.bar.flushTasks
    ensures NoReleaseBeforeFlush(Turned(c, s, Runs(l)).ready, Next(c, s.gw, l).phase)
  {
    var gw', rest := Next(c, s.gw, l), s.ready[1..];
    var ready' := Turned(c, s, Runs(l)).ready;
    NoFlushAmongOthers(rest, s.gw, gw');
    assert forall k | |rest| <= k < |ready'| :: ready'[k] in MadeReady(rest, s.gw, gw');
    forall j, k | 0 <= j < k < |ready'| && ready'[k] == FlushTask ensures !Releases(ready'[j], gw'.phase) {
      assert s.ready[k + 1] == FlushTask && s.ready[j + 1] == ready'[j];
      assert !Releases(s.ready[j + 1], s.gw.phase);
      if ready'[j].WakeTask? {
        assert WakeTask(ready'[j].id) in s.ready;
        StaysLeft(c, s.gw, l, ready'[j].id);
      }
    }
  }

  lemma NobodyProceeds(c: Config, gw: Gw, l: Label)
    requires Enabled(gw, l) && !l.Proceed? && !l.StreamStarts?
    requires forall id | id in gw.phase :: !gw.phase[id].StreamReady? && !gw.phase[id].Upstream?
    ensures forall id | id in Next(c, gw, l).phase :: !Next(c, gw, l).phase[id].StreamReady? && !Next(c, gw, l).phase[id].Upstream?
  {
  }

  lemma {:induction false} FlushStaysSoon(c: Config, s: Loop, l: Label)
    requires FlushSoon(c, s) && WokenLeft(s) && Inv(c, s.gw) && CanTurn(s, Runs(l)) && FlushTask in s.ready
    ensures FlushSoon(c, Turned(c, s, Runs(l)))
  {
    NoReleaseYet(c, s, l);
    NobodyEnters(c, s.gw, l);
    NobodyProceeds(c, s.gw, l);
    OrderKept(c, s, l);
  }

  lemma FullList(c: Config, gw: Gw, l: Label)
    requires Enabled(gw, l) && Next(c, gw, l).bar.flushTasks > gw.bar.flushTasks
    ensures |Next(c, gw, l).bar.pending| >= c.batchMax
  {
  }

  lemma FullIsSoon(c: Config, s: Loop)
    requires Inv(c, s.gw) && |s.gw.bar.pending| >= c.batchMax >= c.maxConcurrency
    ensures FlushSoon(c, s)
  {
    FullMeansAll(c, s.gw);
  }

  lemma FlushBecomesSoon(c: Config, s: Loop, l: Label)
    requires CanTurn(s, Runs(l)) && Inv(c, Next(c, s.gw, l))
    requires FlushTask !in s.ready && c.maxConcurrency <= c.batchMax
    ensures FlushSoon(c, Turned(c, s, Runs(l)))
  {
    var gw', rest := Next(c, s.gw, l), s.ready[1..];
    NoFlushAmongOthers(rest, s.gw, gw');
    if gw'.bar.flushTasks > s.gw.bar.flushTasks {
      FullList(c, s.gw, l);
      FullIsSoon(c, Turned(c, s, Runs(l)));
    } else {
      assert FlushTask !in Turned(c, s, Runs(l)).ready;
    }
  }

  lemma TurnKeepsSoon(c: Config, s: Loop, t: Turn)
    requires FlushSoon(c, s) && WokenLeft(s) && Inv(c, s.gw) && CanTurn(s, t) && Inv(c, Turned(c, s, t).gw)
    requires c.maxConcurrency <= c.batchMax
    ensures FlushSoon(c, Turned(c, s, t))
  {
    match t
    case Becomes(job) => PostKeepsOrder(s.ready, job, s.gw.phase);
    case Runs(l) =>
      if FlushTask in s.ready {
        FlushStaysSoon(c, s, l);
      } else {
        FlushBecomesSoon(c, s, l);
      }
    case Skips => SkipKeepsOrder(s.ready, s.gw.phase);
    case Passes(_) =>
  }

  lemma SkipKeepsOrder(ready: seq<Job>, phase: map<nat, Phase>)
    requires ready != [] && (FlushTask in ready ==> NoReleaseBeforeFlush(ready, phase))
    ensures FlushTask in ready[1..] ==> NoReleaseBeforeFlush(ready[1..], phase)
  {
    assert forall k | 0 <= k < |ready| - 1 :: ready[1..][k] == ready[k + 1];
  }

  lemma PostKeepsOrder(ready: seq<Job>, job: Job, phase: map<nat, Phase>)
    requires job != FlushTask && (FlushTask in ready ==> NoReleaseBeforeFlush(ready, phase))
    ensures FlushTask in ready + [job] ==> NoReleaseBeforeFlush(ready + [job], phase)
  {
    assert forall k | 0 <= k < |ready| :: (ready + [job])[k] == ready[k];
  }

  lemma {:induction false} FlushesFindAll(c: Config, ts: seq<Turn>)
    requires IsLoopRun(c, ts) && c.maxConcurrency <= c.batchMax
    ensures FlushSoon(c, LoopState(c, ts)) && WokenLeft(LoopState(c, ts))
  {
    if ts != [] {
      var before := ts[..|ts| - 1];
      FlushesFindAll(c, before);
      LoopKeepsInv(c, before);
      LoopKeepsInv(c, ts);
      WokenStayLeft(c, LoopState(c, before), ts[|ts| - 1]);
      TurnKeepsSoon(c, LoopState(c, before), ts[|ts| - 1]);
    }
  }

  /** With no more permits than the size limit, a batch released by the size test has reached it. */
  lemma {:induction false} SizeBatchesFill(c: Config, ts: seq<Turn>)
    requires IsLoopRun(c, ts) && c.maxConcurrency <= c.batchMax
    ensures forall b | b in LoopState(c, ts).gw.bar.batches && b.cause == BySize :: |b.entries| >= c.batchMax
  {
    if ts != [] {
      var before := ts[..|ts| - 1];
      var s := LoopState(c, before);
      SizeBatchesFill(c, before);
      FlushesFindAll(c, before);
      match ts[|ts| - 1]
      case Runs(l) => BatchStep(c, s.gw, l);
      case _ =>
    }
  }

  // ----- runs that exceed the limits -----

  /** The run leads to s, and the loop keeps up. */
  ghost predicate LeadsTo(c: Config, ts: seq<Turn>, s: Loop) {
    IsLoopRun(c, ts) && KeepsUp(c, ts) && LoopState(c, ts) == s
  }

  lemma Take(c: Config, ts: seq<Turn>, s: Loop, t: Turn) returns (ts': seq<Turn>, s': Loop)
    requires LeadsTo(c, ts, s) && CanTurn(s, t) && (t.Passes? ==> Idle(s, t.dt))
    ensures LeadsTo(c, ts', s') && s' == Turned(c, s, t)
  {
    ts', s' := ts + [t], Turned(c, s, t);
    TurnsOn(c, ts, t);
    assert ts'[..|ts|] == ts;
  }

  /** The first k requests have come and wait in the barrier. */
  ghost predicate Gathered(c: Config, gw: Gw, k: nat) {
    && 1 <= k <= c.maxConcurrency
    && gw.lim == Limiter(Sem(c.maxConcurrency - k, [], c.lib), 0, 0)
    && gw.next == |gw.bar.pending| == k
    && (forall id | id in gw.phase :: id < k && gw.phase[id].InBarrier?)
    && (forall i | 0 <= i < k :: gw.bar.pending[i].id == i && i in gw.phase)
    && gw.bar.gen == 1 && gw.bar.batches == []
  }

  lemma {:induction false} NothingWoken(ready: seq<Job>, es: seq<Entry>, before: map<nat, Phase>, after: map<nat, Phase>)
    requires forall id | id in after :: !after[id].Dispatched?
    ensures Woken(ready, es, before, after) == []
  {
    if es != [] {
      NothingWoken(ready, es[..|es| - 1], before, after);
    }
  }

  lemma Post(c: Config, ts: seq<Turn>, s: Loop, job: Job) returns (ts': seq<Turn>, s': Loop)
    requires LeadsTo(c, ts, s) && Outside(s, job)
    ensures LeadsTo(c, ts', s') && s' == s.(ready := s.ready + [job])
  {
    ts', s' := Take(c, ts, s, Becomes(job));
  }

  function FlushIf(c: Config, k: nat): seq<Job> { if k >= c.batchMax then [FlushTask] else [] }

  lemma FirstEnters(c: Config, ts: seq<Turn>, s: Loop) returns (ts': seq<Turn>, s': Loop)
    requires LeadsTo(c, ts, s)
    requires s.gw == Start(c) && c.maxConcurrency > 0 && s.ready != [] && s.ready[0] == Incoming
    ensures LeadsTo(c, ts', s')
    ensures Gathered(c, s'.gw, 1)
      && s'.ready == s.ready[1..] + ([TimerTask(1)] + FlushIf(c, 1))
      && s'.gw.bar.timers == map[1 := Created] && s'.gw.bar.flushTasks == |FlushIf(c, 1)| && s'.gw.now == 0.0
  {
    ts', s' := Take(c, ts, s, Runs(NewRequest));
    assert MadeReady(s.ready[1..], s.gw, s'.gw) == [TimerTask(1)] + FlushIf(c, 1);
  }

  lemma AnotherEnters(c: Config, ts: seq<Turn>, s: Loop, k: nat) returns (ts': seq<Turn>, s': Loop)
    requires LeadsTo(c, ts, s)
    requires Gathered(c, s.gw, k) && k < c.maxConcurrency && s.ready != [] && s.ready[0] == Incoming
    ensures LeadsTo(c, ts', s')
    ensures Gathered(c, s'.gw, k + 1)
      && s'.ready == s.ready[1..] + FlushIf(c, k + 1)
      && s'.gw.bar.timers == s.gw.bar.timers && s'.gw.bar.flushTasks == s.gw.bar.flushTasks + |FlushIf(c, k + 1)|
      && s'.gw.now == s.gw.now
  {
    ts', s' := Take(c, ts, s, Runs(NewRequest));
    NothingWoken(s.ready[1..], s.gw.bar.pending, s.gw.phase, s'.gw.phase);
    assert MadeReady(s.ready[1..], s.gw, s'.gw) == FlushIf(c, k + 1);
  }

  lemma SleepMakesNothingReady(c: Config, gw: Gw, ready: seq<Job>, k: nat)
    requires Gathered(c, gw, k) && gw.bar.timers == map[1 := Created]
    ensures var gw' := Next(c, gw, TimerStarts(1));
      && MadeReady(ready, gw, gw') == []
      && Gathered(c, gw', k)
      && gw'.bar.timers == map[1 := Sleeping(gw.now + c.window)]
      && gw'.bar.flushTasks == gw.bar.flushTasks && gw'.now == gw.now
  {
    NothingWoken(ready, gw.bar.pending, gw.phase, gw.phase);
  }

  lemma TimerGoesToSleep(c: Config, ts: seq<Turn>, s: Loop, k: nat) returns (ts': seq<Turn>, s': Loop)
    requires LeadsTo(c, ts, s)
    requires Gathered(c, s.gw, k) && s.ready != [] && s.ready[0] == TimerTask(1) && s.gw.bar.timers == map[1 := Created]
    ensures LeadsTo(c, ts', s')
    ensures Gathered(c, s'.gw, k)
      && s'.ready == s.ready[1..]
      && s'.gw.bar.timers == map[1 := Sleeping(s.gw.now + c.window)] && s'.gw.bar.flushTasks == s.gw.bar.flushTasks
      && s'.gw.now == s.gw.now
  {
    SleepMakesNothingReady(c, s.gw, s.ready[1..], k);
    ts', s' := Take(c, ts, s, Runs(TimerStarts(1)));
  }

  /** k requests, fewer than the limit, have come one at a time; nothing is ready and the timer sleeps. */
  ghost predicate Calm(c: Config, s: Loop, k: nat) {
    && Gathered(c, s.gw, k) && s.ready == [] && s.gw.now == 0.0
    && s.gw.bar.timers == map[1 := Sleeping(c.window)] && s.gw.bar.flushTasks == 0
  }

  lemma {:induction false} CalmReached(c: Config, k: nat) returns (ts: seq<Turn>, s: Loop)
    requires 1 <= k <= c.maxConcurrency && k < c.batchMax
    ensures LeadsTo(c, ts, s) && Calm(c, s, k)
  {
    if k == 1 {
      s := Begin(c);
      ts := [];
      ts, s := Post(c, ts, s, Incoming);
      ts, s := FirstEnters(c, ts, s);
      ts, s := TimerGoesToSleep(c, ts, s, 1);
    } else {
      ts, s := CalmReached(c, k - 1);
      ts, s := Post(c, ts, s, Incoming);
      ts, s := AnotherEnters(c, ts, s, k - 1);
    }
  }

  /** The limit is exceeded and a flush task is next. */
  ghost predicate Exceeded(c: Config, ts: seq<Turn>, s: Loop) {
    && LeadsTo(c, ts, s)
    && s.ready != [] && s.ready[0] == FlushTask && s.gw.bar.flushTasks > 0
    && |s.gw.bar.pending| > Max(0, c.batchMax)
  }

  lemma NoLimitExceeded(c: Config) returns (ts: seq<Turn>, s: Loop)
    requires c.batchMax <= 0 < c.maxConcurrency
    ensures Exceeded(c, ts, s)
  {
    ts, s := Post(c, [], Begin(c), Incoming);
    ts, s := FirstEnters(c, ts, s);
    ts, s := TimerGoesToSleep(c, ts, s, 1);
  }

  lemma LimitOfOneExceeded(c: Config) returns (ts: seq<Turn>, s: Loop)
    requires c.batchMax == 1 < c.maxConcurrency
    ensures Exceeded(c, ts, s)
  {
    ts, s := Post(c, [], Begin(c), Incoming);
    ts, s := Post(c, ts, s, Incoming);
    ts, s := FirstEnters(c, ts, s);
    ts, s := AnotherEnters(c, ts, s, 1);
    ts, s := TimerGoesToSleep(c, ts, s, 2);
  }

  /** Two requests become ready together when one is missing to the limit; both enter before the flush task
      that the first of them creates. */
  lemma LimitExceeded(c: Config) returns (ts: seq<Turn>, s: Loop)
    requires 2 <= c.batchMax < c.maxConcurrency
    ensures Exceeded(c, ts, s)
  {
    ts, s := CalmReached(c, c.batchMax - 1);
    ts, s := Post(c, ts, s, Incoming);
    ts, s := Post(c, ts, s, Incoming);
    ts, s := AnotherEnters(c, ts, s, c.batchMax - 1);
    ts, s := AnotherEnters(c, ts, s, c.batchMax);
  }

  lemma FlushReleasesAll(c: Config, s: Loop)
    requires s.ready != [] && s.ready[0] == FlushTask && s.gw.bar.flushTasks > 0 && s.gw.bar.pending != []
    ensures CanTurn(s, Runs(FlushRuns))
    ensures Batch(s.gw.bar.pending, s.gw.now, BySize) in Turned(c, s, Runs(FlushRuns)).gw.bar.batches
  {
  }

  lemma OversizedBatch(c: Config) returns (ts: seq<Turn>, s: Loop)
    requires c.maxConcurrency > 0 && c.maxConcurrency > c.batchMax
    ensures LeadsTo(c, ts, s) && exists b :: b in s.gw.bar.batches && |b.entries| > c.batchMax
  {
    if c.batchMax <= 0 {
      ts, s := NoLimitExceeded(c);
    } else if c.batchMax == 1 {
      ts, s := LimitOfOneExceeded(c);
    } else {
      ts, s := LimitExceeded(c);
    }
    FlushReleasesAll(c, s);
    var all := Batch(s.gw.bar.pending, s.gw.now, BySize);
    ts, s := Take(c, ts, s, Runs(FlushRuns));
    assert all in s.gw.bar.batches;
  }

  lemma TimerTakesAll(c: Config, ts: seq<Turn>, s: Loop) returns (ts': seq<Turn>, s': Loop)
    requires LeadsTo(c, ts, s)
    requires 2 <= c.batchMax && Gathered(c, s.gw, c.batchMax) && s.ready == [TimerWake(1), Incoming, FlushTask]
    requires Enabled(s.gw, TimerFires(1))
    ensures LeadsTo(c, ts', s')
    ensures s'.gw.lim == s.gw.lim && s'.gw.bar.pending == [] && s'.gw.bar.flushTasks == s.gw.bar.flushTasks
      && |s'.ready| >= 2 && s'.ready[0] == Incoming && s'.ready[1] == FlushTask
  {
    ts', s' := Take(c, ts, s, Runs(TimerFires(1)));
  }

  lemma NextEntersAlone(c: Config, ts: seq<Turn>, s: Loop) returns (ts': seq<Turn>, s': Loop)
    requires LeadsTo(c, ts, s)
    requires s.gw.lim.sem.value > 0 && s.gw.lim.sem.waiters == [] && s.gw.bar.pending == []
    requires |s.ready| >= 2 && s.ready[0] == Incoming && s.ready[1] == FlushTask
    ensures LeadsTo(c, ts', s')
    ensures |s'.gw.bar.pending| == 1 && s'.gw.bar.flushTasks >= s.gw.bar.flushTasks
      && s'.ready != [] && s'.ready[0] == FlushTask
  {
    ts', s' := Take(c, ts, s, Runs(NewRequest));
  }

  lemma WindowOver(c: Config) returns (ts: seq<Turn>, s: Loop)
    requires 2 <= c.batchMax < c.maxConcurrency
    ensures LeadsTo(c, ts, s) && Gathered(c, s.gw, c.batchMax - 1) && s.ready == [] && s.gw.bar.flushTasks == 0
    ensures Enabled(s.gw, TimerFires(1))
  {
    ts, s := CalmReached(c, c.batchMax - 1);
    if c.window > 0.0 {
      ts, s := Take(c, ts, s, Passes(c.window));
    }
  }

  lemma FullWhenTimerIsDue(c: Config) returns (ts: seq<Turn>, s: Loop)
    requires 2 <= c.batchMax < c.maxConcurrency
    ensures LeadsTo(c, ts, s) && Gathered(c, s.gw, c.batchMax) && s.gw.bar.flushTasks > 0
    ensures s.ready == [TimerWake(1), Incoming, FlushTask] && Enabled(s.gw, TimerFires(1))
  {
    ts, s := WindowOver(c);
    ts, s := Post(c, ts, s, Incoming);
    ts, s := Post(c, ts, s, TimerWake(1));
    ts, s := Post(c, ts, s, Incoming);
    ts, s := AnotherEnters(c, ts, s, c.batchMax - 1);
  }

  /** The last request to the limit, the timer and one more request become ready in this order.  The timer
      takes the full list before the flush task has run, and the task is left with the next request. */
  lemma LeftoverFlush(c: Config) returns (ts: seq<Turn>, s: Loop)
    requires 2 <= c.batchMax < c.maxConcurrency
    ensures LeadsTo(c, ts, s)
    ensures exists b :: b in s.gw.bar.batches && b.cause == BySize && |b.entries| == 1
  {
    ts, s := FullWhenTimerIsDue(c);
    ts, s := TimerTakesAll(c, ts, s);
    ts, s := NextEntersAlone(c, ts, s);
    FlushReleasesAll(c, s);
    var left := Batch(s.gw.bar.pending, s.gw.now, BySize);
    ts, s := Take(c, ts, s, Runs(FlushRuns));
    assert left in s.gw.bar.batches;
  }

  // ----- the exact configurations -----

  /** The runs of the loop, or only those on which it keeps up. */
  ghost predicate Among(c: Config, ts: seq<Turn>, keepsUp: bool) {
    IsLoopRun(c, ts) && (keepsUp ==> KeepsUp(c, ts))
  }

  ghost predicate SizeTriggerUnreachable(c: Config, keepsUp: bool) {
    forall ts | Among(c, ts, keepsUp) :: LoopState(c, ts).gw.bar.flushTasks == 0
  }

  ghost predicate BatchesFitLimit(c: Config, keepsUp: bool) {
    forall ts | Among(c, ts, keepsUp) ::
      forall b | b in LoopState(c, ts).gw.bar.batches :: |b.entries| <= c.batchMax
  }

  ghost predicate SizeBatchesAreFull(c: Config, keepsUp: bool) {
    forall ts | Among(c, ts, keepsUp) ::
      forall b | b in LoopState(c, ts).gw.bar.batches && b.cause == BySize :: |b.entries| >= c.batchMax
  }

  lemma SizeTriggerReached(c: Config) returns (ts: seq<Turn>, s: Loop)
    requires c.maxConcurrency > 0 && c.maxConcurrency >= c.batchMax
    ensures LeadsTo(c, ts, s) && s.gw.bar.flushTasks > 0
  {
    if c.batchMax <= 1 {
      ts, s := Post(c, [], Begin(c), Incoming);
      ts, s := FirstEnters(c, ts, s);
    } else {
      ts, s := CalmReached(c, c.batchMax - 1);
      ts, s := Post(c, ts, s, Incoming);
      ts, s := AnotherEnters(c, ts, s, c.batchMax - 1);
    }
  }

  /** The size trigger can be reached exactly when there are enough permits for it, whether or not the loop
      keeps up. */
  lemma SizeTriggerExactly(c: Config, keepsUp: bool)
    ensures SizeTriggerUnreachable(c, keepsUp) <==> (c.maxConcurrency == 0 || c.maxConcurrency < c.batchMax)
  {
    if c.maxConcurrency == 0 || c.maxConcurrency < c.batchMax {
      forall ts | Among(c, ts, keepsUp) ensures LoopState(c, ts).gw.bar.flushTasks == 0 {
        LoopRefinesGateway(c, ts);
        TooFewForSizeTrigger(c, Labels(ts));
      }
    } else {
      var ts, s := SizeTriggerReached(c);
      assert Among(c, ts, keepsUp);
    }
  }

  /** "At most batch_max_size requests per batch" holds on every run exactly when no more requests than that
      can be past admission; the barrier itself does not enforce it, since the flush is a task that
      runs later and requests that were ready before it join first. */
  lemma BatchLimitExactly(c: Config, keepsUp: bool)
    ensures BatchesFitLimit(c, keepsUp) <==> (c.maxConcurrency == 0 || c.maxConcurrency <= c.batchMax)
  {
    if c.maxConcurrency == 0 || c.maxConcurrency <= c.batchMax {
      forall ts | Among(c, ts, keepsUp)
        ensures forall b | b in LoopState(c, ts).gw.bar.batches :: |b.entries| <= c.batchMax
      {
        LoopRefinesGateway(c, ts);
        FewFit(c, Labels(ts));
      }
    } else {
      var ts, s := OversizedBatch(c);
      assert Among(c, ts, keepsUp);
    }
  }

  /** A batch released by the size test has reached the size limit on every run exactly when there are no
      more permits than the limit, or the limit is trivial. */
  lemma SizeBatchesFullExactly(c: Config, keepsUp: bool)
    ensures SizeBatchesAreFull(c, keepsUp) <==> (c.maxConcurrency <= c.batchMax || c.batchMax <= 1)
  {
    if c.maxConcurrency <= c.batchMax || c.batchMax <= 1 {
      forall ts | Among(c, ts, keepsUp)
        ensures forall b | b in LoopState(c, ts).gw.bar.batches && b.cause == BySize :: |b.entries| >= c.batchMax
      {
        if c.batchMax <= 1 {
          LoopRefinesGateway(c, ts);
          NoEmptyBatch(c, Labels(ts));
        } else {
          SizeBatchesFill(c, ts);
        }
      }
    } else {
      var ts, s := LeftoverFlush(c);
      assert Among(c, ts, keepsUp);
    }
  }
}
