/** The event loop underneath Gateway.  The loop runs what is ready strictly in the order in which it
    became ready: a task created, an event set or a permit granted by the code puts its job at the end
    of the list, and so does whatever comes from outside, when it comes.  Every run of the loop is a
    run of Gateway, but not the other way round. */
module EventLoop {
  import opened Admission
  import opened Barrier
  import opened Gateway

  /** Incoming, QueueExpiry, QueueCancel, TimerWake, CancelTask, StreamBegins and UpstreamEnds come from
      outside; the others are put on the list by the code. */
  datatype Job =
    | Incoming
    | QueueExpiry(id: nat)
    | QueueCancellation(id: nat)
    | ResumeTask(id: nat)
    | TimerTask(g: nat)
    | TimerWake(g: nat)
    | FlushTask
    | WakeTask(id: nat)
    | CancelTask(id: nat)
    | StreamBegins(id: nat)
    | UpstreamEnds(id: nat)

  datatype Loop = Loop(gw: Gw, ready: seq<Job>)

  datatype Turn = Becomes(job: Job) | Runs(l: Label) | Skips | Passes(dt: real)

  function Begin(c: Config): Loop { Loop(Start(c), []) }

  /** What can become ready from outside now.  A timer's job comes no earlier than its deadline; a waiter
      of the barrier that is cancelled will run again to find out. */
  predicate Outside(s: Loop, job: Job) {
    match job
    case Incoming => true
    case QueueExpiry(id) => Enabled(s.gw, QueueTimeout(id))
    case QueueCancellation(id) => Enabled(s.gw, QueueCancel(id))
    case TimerWake(g) => Enabled(s.gw, TimerFires(g)) && job !in s.ready
    case CancelTask(id) => id in s.gw.phase && s.gw.phase[id].InBarrier? && job !in s.ready
    case StreamBegins(id) => Enabled(s.gw, StreamStarts(id))
    case UpstreamEnds(id) => Enabled(s.gw, Finish(id, Completed))
    case _ => false
  }

  /** The stretches of code a job can turn out to be. */
  predicate Does(job: Job, l: Label) {
    match job
    case Incoming => l == NewRequest
    case QueueExpiry(id) => l == QueueTimeout(id)
    case QueueCancellation(id) => l == QueueCancel(id)
    case ResumeTask(id) => l == ResumeQueued(id)
    case TimerTask(g) => l == TimerStarts(g)
    case TimerWake(g) => l == TimerFires(g)
    case FlushTask => l == FlushRuns
    case WakeTask(id) => l == CancelWaiting(id) || l == ResponseFails(id) || (l.Proceed? && l.id == id)
    case CancelTask(id) => l == CancelWaiting(id)
    case StreamBegins(id) => l == StreamStarts(id) || l == StreamDropped(id)
    case UpstreamEnds(id) => l.Finish? && l.id == id
  }

  /** One thing the job can do. */
  function Typical(job: Job): Label {
    match job
    case Incoming => NewRequest
    case QueueExpiry(id) => QueueTimeout(id)
    case QueueCancellation(id) => QueueCancel(id)
    case ResumeTask(id) => ResumeQueued(id)
    case TimerTask(g) => TimerStarts(g)
    case TimerWake(g) => TimerFires(g)
    case FlushTask => FlushRuns
    case WakeTask(id) => CancelWaiting(id)
    case CancelTask(id) => CancelWaiting(id)
    case StreamBegins(id) => StreamStarts(id)
    case UpstreamEnds(id) => Finish(id, Completed)
  }

  /** A waiter's job does nothing if the waiter is gone. */
  predicate Stale(gw: Gw, job: Job) { !Enabled(gw, Typical(job)) }

  // ----- what a stretch of code makes ready -----

  predicate WasWaiting(ws: seq<Waiter>, id: nat) {
    exists w | w in ws :: w.id == id && w.fut == Waiting
  }

  /** Queued requests whose future has just been granted or cancelled. */
  function Resumed(ws: seq<Waiter>, ws': seq<Waiter>): seq<Job> {
    if ws' == [] then []
    else
      var w := ws'[|ws'| - 1];
      Resumed(ws, ws'[..|ws'| - 1]) + if w.fut != Waiting && WasWaiting(ws, w.id) then [ResumeTask(w.id)] else []
  }

  /** Waiters of the barrier whose event has just been set, unless they are already to run. */
  function Woken(ready: seq<Job>, es: seq<Entry>, before: map<nat, Phase>, after: map<nat, Phase>): seq<Job> {
    if es == [] then []
    else
      var id := es[|es| - 1].id;
      Woken(ready, es[..|es| - 1], before, after) +
      if id in before && before[id].InBarrier? && id in after && after[id].Dispatched? && CancelTask(id) !in ready
      then [WakeTask(id)] else []
  }

  function Created(b: Bar, b': Bar): seq<Job> {
    (if b'.gen > b.gen then [TimerTask(b'.gen)] else []) +
    (if b'.flushTasks > b.flushTasks then [FlushTask] else [])
  }

  function MadeReady(ready: seq<Job>, gw: Gw, gw': Gw): seq<Job> {
    Resumed(gw.lim.sem.waiters, gw'.lim.sem.waiters)
      + Woken(ready, gw.bar.pending, gw.phase, gw'.phase)
      + Created(gw.bar, gw'.bar)
  }

  // ----- runs of the loop -----

  predicate CanTurn(s: Loop, t: Turn) {
    match t
    case Becomes(job) => Outside(s, job)
    case Runs(l) => s.ready != [] && Does(s.ready[0], l) && Enabled(s.gw, l)
    case Skips => s.ready != [] && Stale(s.gw, s.ready[0])
    case Passes(dt) => dt > 0.0
  }

  function Turned(c: Config, s: Loop, t: Turn): Loop
    requires CanTurn(s, t)
  {
    match t
    case Becomes(job) => s.(ready := s.ready + [job])
    case Runs(l) =>
      var gw', rest := Next(c, s.gw, l), s.ready[1..];
      Loop(gw', rest + MadeReady(rest, s.gw, gw'))
    case Skips => s.(ready := s.ready[1..])
    case Passes(dt) => s.(gw := Next(c, s.gw, Tick(dt)))
  }

  predicate IsLoopRun(c: Config, ts: seq<Turn>)
    decreases |ts|, 0
  {
    ts == [] || (IsLoopRun(c, ts[..|ts| - 1]) && CanTurn(LoopState(c, ts[..|ts| - 1]), ts[|ts| - 1]))
  }

  function LoopState(c: Config, ts: seq<Turn>): Loop
    requires IsLoopRun(c, ts)
    decreases |ts|, 1
  {
    if ts == [] then Begin(c) else Turned(c, LoopState(c, ts[..|ts| - 1]), ts[|ts| - 1])
  }

  lemma TurnsOn(c: Config, ts: seq<Turn>, t: Turn)
    requires IsLoopRun(c, ts) && CanTurn(LoopState(c, ts), t)
    ensures IsLoopRun(c, ts + [t]) && LoopState(c, ts + [t]) == Turned(c, LoopState(c, ts), t)
  {
    assert (ts + [t])[..|ts|] == ts;
  }

  function LabelsOf(t: Turn): seq<Label> {
    match t
    case Runs(l) => [l]
    case Passes(dt) => [Tick(dt)]
    case _ => []
  }

  /** What a run of the loop does, seen as labels of Gateway. */
  function Labels(ts: seq<Turn>): seq<Label> {
    if ts == [] then [] else Labels(ts[..|ts| - 1]) + LabelsOf(ts[|ts| - 1])
  }

  /** Every run of the loop is a run of Gateway, so that whatever holds on all of those holds here. */
  lemma {:induction false} LoopRefinesGateway(c: Config, ts: seq<Turn>)
    requires IsLoopRun(c, ts)
    ensures IsRun(c, Labels(ts)) && State(c, Labels(ts)) == LoopState(c, ts).gw
  {
    if ts != [] {
      var before := ts[..|ts| - 1];
      LoopRefinesGateway(c, before);
      match ts[|ts| - 1]
      case Runs(l) => Extend(c, Labels(before), l);
      case Passes(dt) => Extend(c, Labels(before), Tick(dt));
      case Becomes(_) => assert Labels(ts) == Labels(before);
      case Skips => assert Labels(ts) == Labels(before);
    }
  }

  /** A job is skipped exactly when there is nothing it can do, so the loop never gets stuck on one. */
  lemma StaleExactly(gw: Gw, job: Job)
    ensures Stale(gw, job) <==> forall l | Does(job, l) :: !Enabled(gw, l)
  {
    assert Does(job, Typical(job));
    assert forall l | Does(job, l) && Enabled(gw, l) :: Enabled(gw, Typical(job));
  }

  // ----- what comes from outside does come -----

  /** The job by which something from outside reaches the loop. */
  function JobOf(l: Label): Job
    requires FromOutside(l)
  {
    match l
    case QueueTimeout(id) => QueueExpiry(id)
    case QueueCancel(id) => QueueCancellation(id)
    case TimerFires(g) => TimerWake(g)
    case CancelWaiting(id) => CancelTask(id)
    case StreamStarts(id) => StreamBegins(id)
    case StreamDropped(id) => StreamBegins(id)
    case Finish(id, _) => UpstreamEnds(id)
    case _ => Incoming
  }

  predicate FromOutside(l: Label) {
    l.NewRequest? || l.QueueTimeout? || l.QueueCancel? || l.TimerFires? || l.CancelWaiting? || l.StreamStarts?
    || l.StreamDropped? || l.Finish?
  }

  lemma ComesFromOutside(s: Loop, l: Label)
    requires s.ready == [] && FromOutside(l) && Enabled(s.gw, l)
    requires l.CancelWaiting? ==> s.gw.phase[l.id].InBarrier?
    ensures Outside(s, JobOf(l)) && Does(JobOf(l), l)
  {
  }

  /** A loop with nothing to do lets everything from outside happen that can happen. */
  lemma OutsideHappens(c: Config, ts: seq<Turn>, l: Label)
    requires IsLoopRun(c, ts) && LoopState(c, ts).ready == [] && FromOutside(l) && Enabled(LoopState(c, ts).gw, l)
    requires l.CancelWaiting? ==> LoopState(c, ts).gw.phase[l.id].InBarrier?
    ensures IsLoopRun(c, ts + [Becomes(JobOf(l))] + [Runs(l)])
    ensures LoopState(c, ts + [Becomes(JobOf(l))] + [Runs(l)]).gw == Next(c, LoopState(c, ts).gw, l)
  {
    ComesFromOutside(LoopState(c, ts), l);
    TurnsOn(c, ts, Becomes(JobOf(l)));
    TurnsOn(c, ts + [Becomes(JobOf(l))], Runs(l));
  }

  /** A waiter whose turn it is can do all that a released waiter can do. */
  lemma WokenCanGoOn(c: Config, ts: seq<Turn>, id: nat, l: Label)
    requires IsLoopRun(c, ts) && LoopState(c, ts).ready != [] && LoopState(c, ts).ready[0] == WakeTask(id)
    requires Enabled(LoopState(c, ts).gw, l)
    requires l == ResponseFails(id) || l == CancelWaiting(id) || l == Proceed(id, true) || l == Proceed(id, false)
    ensures IsLoopRun(c, ts + [Runs(l)]) && LoopState(c, ts + [Runs(l)]).gw == Next(c, LoopState(c, ts).gw, l)
  {
    TurnsOn(c, ts, Runs(l));
  }

  // ----- first come, first served -----

  /** The jobs a turn puts on the list, and the one it takes off. */
  function Puts(c: Config, s: Loop, t: Turn): seq<Job>
    requires CanTurn(s, t)
  {
    match t
    case Becomes(job) => [job]
    case Runs(l) => MadeReady(s.ready[1..], s.gw, Next(c, s.gw, l))
    case _ => []
  }

  function Takes(s: Loop, t: Turn): seq<Job>
    requires CanTurn(s, t)
  {
    match t
    case Runs(_) => [s.ready[0]]
    case Skips => [s.ready[0]]
    case _ => []
  }

  function AllPut(c: Config, ts: seq<Turn>): seq<Job>
    requires IsLoopRun(c, ts)
  {
    if ts == [] then []
    else AllPut(c, ts[..|ts| - 1]) + Puts(c, LoopState(c, ts[..|ts| - 1]), ts[|ts| - 1])
  }

  function AllTaken(c: Config, ts: seq<Turn>): seq<Job>
    requires IsLoopRun(c, ts)
  {
    if ts == [] then []
    else AllTaken(c, ts[..|ts| - 1]) + Takes(LoopState(c, ts[..|ts| - 1]), ts[|ts| - 1])
  }

  lemma TurnKeepsOrder(c: Config, s: Loop, t: Turn)
    requires CanTurn(s, t)
    ensures s.ready + Puts(c, s, t) == Takes(s, t) + Turned(c, s, t).ready
  {
  }

  lemma Rearranged(taken: seq<Job>, ready: seq<Job>, put: seq<Job>, put': seq<Job>, taken': seq<Job>, ready': seq<Job>)
    requires taken + ready == put && ready + put' == taken' + ready'
    ensures taken + taken' + ready' == put + put'
  {
    assert taken + taken' + ready' == taken + (taken' + ready');
    assert taken + (ready + put') == taken + ready + put';
  }

  /** The loop works its jobs off in the order in which they became ready: those taken so far, followed by those on
      the list, are all that were ever put on it, in order. */
  lemma {:induction false} FirstComeFirstServed(c: Config, ts: seq<Turn>)
    requires IsLoopRun(c, ts)
    ensures AllTaken(c, ts) + LoopState(c, ts).ready == AllPut(c, ts)
  {
    if ts != [] {
      var before, t := ts[..|ts| - 1], ts[|ts| - 1];
      var s := LoopState(c, before);
      FirstComeFirstServed(c, before);
      TurnKeepsOrder(c, s, t);
      Rearranged(AllTaken(c, before), s.ready, AllPut(c, before), Puts(c, s, t), Takes(s, t), Turned(c, s, t).ready);
    }
  }

  // ----- whatever can run is on the list -----

  function Flushes(jobs: seq<Job>): nat {
    if jobs == [] then 0 else Flushes(jobs[..|jobs| - 1]) + if jobs[|jobs| - 1] == FlushTask then 1 else 0
  }

  /** Every task of the code that can run has its job on the list, and no flush task has two. */
  ghost predicate Covered(s: Loop) {
    && Flushes(s.ready) == s.gw.bar.flushTasks
    && TimersCovered(s.ready, s.gw.bar)
    && WaitersCovered(s.ready, s.gw.phase)
    && QueueCovered(s.ready, s.gw.lim.sem.waiters)
  }

  ghost predicate TimersCovered(ready: seq<Job>, b: Bar) {
    forall g | g in b.timers && b.timers[g].Created? :: TimerTask(g) in ready
  }

  ghost predicate WaitersCovered(ready: seq<Job>, phase: map<nat, Phase>) {
    forall id | id in phase && phase[id].Dispatched? :: WakeTask(id) in ready || CancelTask(id) in ready
  }

  ghost predicate QueueCovered(ready: seq<Job>, ws: seq<Waiter>) {
    forall w | w in ws && w.fut != Waiting :: ResumeTask(w.id) in ready
  }

  lemma {:induction false} FlushesJoin(a: seq<Job>, b: seq<Job>)
    ensures Flushes(a + b) == Flushes(a) + Flushes(b)
  {
    if b == [] {
      assert a + b == a;
    } else {
      var front := b[..|b| - 1];
      assert (a + b)[..|a + b| - 1] == a + front;
      FlushesJoin(a, front);
    }
  }

  lemma FlushesHead(ready: seq<Job>)
    requires ready != []
    ensures Flushes(ready) == Flushes(ready[1..]) + if ready[0] == FlushTask then 1 else 0
  {
    assert ready == [ready[0]] + ready[1..];
    FlushesJoin([ready[0]], ready[1..]);
  }

  lemma {:induction false} NoFlushes(jobs: seq<Job>)
    requires FlushTask !in jobs
    ensures Flushes(jobs) == 0
  {
    if jobs != [] {
      NoFlushes(jobs[..|jobs| - 1]);
    }
  }

  lemma {:induction false} ResumedIsResumptions(ws: seq<Waiter>, ws': seq<Waiter>)
    ensures forall job | job in Resumed(ws, ws') :: job.ResumeTask?
    ensures forall w | w in ws' && w.fut != Waiting && WasWaiting(ws, w.id) :: ResumeTask(w.id) in Resumed(ws, ws')
  {
    if ws' != [] {
      ResumedIsResumptions(ws, ws'[..|ws'| - 1]);
    }
  }

  lemma {:induction false} WokenIsWakeups(ready: seq<Job>, es: seq<Entry>, before: map<nat, Phase>, after: map<nat, Phase>)
    ensures forall job | job in Woken(ready, es, before, after) ::
              job.WakeTask? && job.id in before && before[job.id].InBarrier? && job.id in after && after[job.id].Dispatched?
    ensures forall e | e in es && e.id in before && before[e.id].InBarrier? && e.id in after && after[e.id].Dispatched? ::
              WakeTask(e.id) in Woken(ready, es, before, after) || CancelTask(e.id) in ready
  {
    if es != [] {
      WokenIsWakeups(ready, es[..|es| - 1], before, after);
    }
  }

  lemma MadeFlushes(ready: seq<Job>, gw: Gw, gw': Gw)
    ensures Flushes(MadeReady(ready, gw, gw')) == if gw'.bar.flushTasks > gw.bar.flushTasks then 1 else 0
  {
    var resumed, woken := Resumed(gw.lim.sem.waiters, gw'.lim.sem.waiters), Woken(ready, gw.bar.pending, gw.phase, gw'.phase);
    ResumedIsResumptions(gw.lim.sem.waiters, gw'.lim.sem.waiters);
    WokenIsWakeups(ready, gw.bar.pending, gw.phase, gw'.phase);
    NoFlushes(resumed);
    NoFlushes(woken);
    FlushesJoin(resumed, woken);
    FlushesJoin(resumed + woken, Created(gw.bar, gw'.bar));
    var timer := if gw'.bar.gen > gw.bar.gen then [TimerTask(gw'.bar.gen)] else [];
    NoFlushes(timer);
    FlushesJoin(timer, if gw'.bar.flushTasks > gw.bar.flushTasks then [FlushTask] else []);
    NoFlushes([]);
  }

  lemma FlushTasksCovered(c: Config, s: Loop, l: Label)
    requires CanTurn(s, Runs(l)) && Flushes(s.ready) == s.gw.bar.flushTasks
    ensures Flushes(Turned(c, s, Runs(l)).ready) == Turned(c, s, Runs(l)).gw.bar.flushTasks
  {
    var gw' := Next(c, s.gw, l);
    FlushesHead(s.ready);
    MadeFlushes(s.ready[1..], s.gw, gw');
    FlushesJoin(s.ready[1..], MadeReady(s.ready[1..], s.gw, gw'));
  }

  lemma RestKeeps(ready: seq<Job>, job: Job)
    requires ready != [] && job in ready && job != ready[0]
    ensures job in ready[1..]
  {
  }

  lemma TimersStayCovered(c: Config, s: Loop, l: Label)
    requires CanTurn(s, Runs(l)) && TimersCovered(s.ready, s.gw.bar)
    ensures TimersCovered(Turned(c, s, Runs(l)).ready, Next(c, s.gw, l).bar)
  {
    var b, b' := s.gw.bar, Next(c, s.gw, l).bar;
    forall g | g in b'.timers && b'.timers[g].Created? ensures TimerTask(g) in Turned(c, s, Runs(l)).ready {
      if g in b.timers && b.timers[g].Created? {
        RestKeeps(s.ready, TimerTask(g));
      } else {
        assert g == b'.gen > b.gen && TimerTask(g) in Created(b, b');
      }
    }
  }

  /** A waiter becomes runnable only from the pending list. */
  lemma DispatchedFrom(c: Config, gw: Gw, l: Label, id: nat)
    requires Enabled(gw, l) && id in Next(c, gw, l).phase && Next(c, gw, l).phase[id].Dispatched?
    ensures id in gw.phase && (gw.phase[id].Dispatched? || (gw.phase[id].InBarrier? && Pends(gw.bar.pending, id)))
  {
  }

  lemma WaitersStayCovered(c: Config, s: Loop, l: Label)
    requires CanTurn(s, Runs(l)) && WaitersCovered(s.ready, s.gw.phase)
    ensures WaitersCovered(Turned(c, s, Runs(l)).ready, Next(c, s.gw, l).phase)
  {
    var gw' := Next(c, s.gw, l);
    var rest := s.ready[1..];
    forall id | id in gw'.phase && gw'.phase[id].Dispatched?
      ensures WakeTask(id) in Turned(c, s, Runs(l)).ready || CancelTask(id) in Turned(c, s, Runs(l)).ready
    {
      DispatchedFrom(c, s.gw, l, id);
      if s.gw.phase[id].Dispatched? {
        assert s.ready[0] != WakeTask(id) && s.ready[0] != CancelTask(id);
      } else {
        WokenIsWakeups(rest, s.gw.bar.pending, s.gw.phase, gw'.phase);
        var e :| e in s.gw.bar.pending && e.id == id;
      }
    }
  }

  /** Whoever stands in one queue and can run stands in the other and can run there, or was waiting. */
  ghost predicate RunnableFrom(ws: seq<Waiter>, ws': seq<Waiter>) {
    forall w' | w' in ws' && w'.fut != Waiting ::
      WasWaiting(ws, w'.id) || exists w | w in ws :: w.id == w'.id && w.fut != Waiting
  }

  lemma SamePlaces(ws: seq<Waiter>, ws': seq<Waiter>)
    requires |ws'| <= |ws| && forall k | 0 <= k < |ws'| :: ws[k].id == ws'[k].id
    ensures RunnableFrom(ws, ws')
  {
    forall w' | w' in ws'
      ensures WasWaiting(ws, w'.id) || exists w | w in ws :: w.id == w'.id && w.fut != Waiting
    {
      var k :| 0 <= k < |ws'| && ws'[k] == w';
      assert ws[k] in ws;
    }
  }

  lemma RunnableAfterRelease(l: Limiter)
    requires SemInv(l.sem)
    ensures RunnableFrom(l.sem.waiters, Release(l).sem.waiters)
  {
    WakeNextKeeps(l.sem.(value := l.sem.value + 1));
    SamePlaces(l.sem.waiters, Release(l).sem.waiters);
  }

  lemma RunnableAfterLeaving(ws: seq<Waiter>, i: nat, ws': seq<Waiter>)
    requires i < |ws| && SameTasks(Without(ws, i), ws')
    ensures RunnableFrom(ws, ws')
  {
    var left := Without(ws, i);
    SamePlaces(left, ws');
    assert forall w | w in left :: w in ws;
  }

  lemma RunnableAfterArrival(l: Limiter, id: nat, cap: int)
    ensures RunnableFrom(l.sem.waiters, Arrive(l, id, cap).0.sem.waiters)
  {
    var ws, ws' := l.sem.waiters, Arrive(l, id, cap).0.sem.waiters;
    forall w' | w' in ws' && w'.fut != Waiting
      ensures exists w | w in ws :: w.id == w'.id && w.fut != Waiting
    {
      assert w' in ws;
    }
  }

  lemma RunnableAfterResumption(gw: Gw, id: nat)
    requires QueueIds(gw) && SemInv(gw.lim.sem) && Enabled(gw, ResumeQueued(id))
    ensures RunnableFrom(gw.lim.sem.waiters, Resume(gw.lim, id).0.sem.waiters)
    ensures forall w | w in Resume(gw.lim, id).0.sem.waiters :: w.id != id
  {
    var i := Find(gw.lim.sem.waiters, id);
    FreshAfterLeaving(gw.lim, gw.phase.Keys, gw.next, id);
    LeaveKeeps(gw.lim.sem, i);
    RunnableAfterLeaving(gw.lim.sem.waiters, i, Leave(gw.lim.sem, i).waiters);
  }

  lemma QueueMoves(c: Config, gw: Gw, l: Label)
    requires Inv(c, gw) && Enabled(gw, l)
    ensures RunnableFrom(gw.lim.sem.waiters, Next(c, gw, l).lim.sem.waiters)
    ensures l.ResumeQueued? ==> forall w | w in Next(c, gw, l).lim.sem.waiters :: w.id != l.id
  {
    var ws := gw.lim.sem.waiters;
    match l
    case NewRequest => RunnableAfterArrival(gw.lim, gw.next, GatewayCapacity(c.queueSize));
    case QueueTimeout(id) => SamePlaces(ws, Disturb(gw.lim, id, TimedOut).sem.waiters);
    case QueueCancel(id) => SamePlaces(ws, Disturb(gw.lim, id, TaskCancelled).sem.waiters);
    case ResumeQueued(id) => RunnableAfterResumption(gw, id);
    case Finish(_, _) => RunnableAfterRelease(gw.lim);
    case ResponseFails(_) => RunnableAfterRelease(gw.lim);
    case _ => SamePlaces(ws, ws);
  }

  lemma {:induction false} QueueStaysCovered(c: Config, s: Loop, l: Label)
    requires Inv(c, s.gw) && CanTurn(s, Runs(l)) && QueueCovered(s.ready, s.gw.lim.sem.waiters)
    ensures QueueCovered(Turned(c, s, Runs(l)).ready, Next(c, s.gw, l).lim.sem.waiters)
  {
    var gw' := Next(c, s.gw, l);
    QueueMoves(c, s.gw, l);
    forall w' | w' in gw'.lim.sem.waiters && w'.fut != Waiting
      ensures ResumeTask(w'.id) in Turned(c, s, Runs(l)).ready
    {
      if WasWaiting(s.gw.lim.sem.waiters, w'.id) {
        ResumedIsResumptions(s.gw.lim.sem.waiters, gw'.lim.sem.waiters);
      } else {
        assert ResumeTask(w'.id) in s.ready;
        RestKeeps(s.ready, ResumeTask(w'.id));
      }
    }
  }

  lemma SkippingKeepsQueueCover(gw: Gw, ready: seq<Job>)
    requires QueueIds(gw) && ready != [] && Stale(gw, ready[0]) && QueueCovered(ready, gw.lim.sem.waiters)
    ensures QueueCovered(ready[1..], gw.lim.sem.waiters)
  {
    forall w | w in gw.lim.sem.waiters && w.fut != Waiting ensures ResumeTask(w.id) in ready[1..] {
      SameId(gw, w);
    }
  }

  lemma SkippingKeepsCover(c: Config, s: Loop)
    requires Inv(c, s.gw) && Covered(s) && CanTurn(s, Skips)
    ensures Covered(Turned(c, s, Skips))
  {
    FlushesHead(s.ready);
    SkippingKeepsQueueCover(s.gw, s.ready);
  }

  /** Ids in the queue are distinct. */
  lemma SameId(gw: Gw, w: Waiter)
    requires QueueIds(gw) && w in gw.lim.sem.waiters
    ensures var i := Find(gw.lim.sem.waiters, w.id); i < |gw.lim.sem.waiters| && gw.lim.sem.waiters[i] == w
  {
    var k :| 0 <= k < |gw.lim.sem.waiters| && gw.lim.sem.waiters[k] == w;
  }

  lemma TurnKeepsCover(c: Config, s: Loop, t: Turn)
    requires Inv(c, s.gw) && Covered(s) && CanTurn(s, t)
    ensures Covered(Turned(c, s, t))
  {
    match t
    case Becomes(job) => FlushesJoin(s.ready, [job]);
    case Runs(l) =>
      FlushTasksCovered(c, s, l);
      TimersStayCovered(c, s, l);
      WaitersStayCovered(c, s, l);
      QueueStaysCovered(c, s, l);
    case Skips => SkippingKeepsCover(c, s);
    case Passes(_) =>
  }

  lemma {:induction false} LoopKeepsInv(c: Config, ts: seq<Turn>)
    requires IsLoopRun(c, ts)
    ensures Inv(c, LoopState(c, ts).gw)
  {
    LoopRefinesGateway(c, ts);
    EveryRunKeepsInv(c, Labels(ts));
  }

  /** Nothing runnable is ever forgotten: in every state the loop can reach, every task that can run is on
      its list. */
  lemma {:induction false} NothingIsForgotten(c: Config, ts: seq<Turn>)
    requires IsLoopRun(c, ts)
    ensures Covered(LoopState(c, ts))
  {
    if ts != [] {
      var before := ts[..|ts| - 1];
      NothingIsForgotten(c, before);
      LoopKeepsInv(c, before);
      TurnKeepsCover(c, LoopState(c, before), ts[|ts| - 1]);
    }
  }
}
