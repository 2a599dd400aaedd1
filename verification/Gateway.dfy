/** The gateway's admission and dispatch protocol as a labelled transition system over any number of
    requests.  One event loop runs everything, so a label stands for one stretch of code between two
    suspension points, or for an event of the environment: the clock, a timeout, a cancellation, the
    upstream server. */
module Gateway {
  import opened Admission
  import opened Barrier
  import opened Tally

  datatype Config = Config(lib: Library, maxConcurrency: nat, queueSize: int, window: real, batchMax: int)

  datatype Ending = Completed | UpstreamError | UpstreamTimeout | UpstreamUnavailable | ClientGone | ResponseNotBuilt

  /** A request that has been given a permit.  The last three phases are final; in the last two the
      permit is never given back. */
  datatype Phase =
    | InBarrier(t0: real)
    | Dispatched(t0: real)
    | StreamReady
    | Upstream
    | Finished(how: Ending)
    | CancelledInBarrier
    | StreamNeverStarted

  /** releases is history: the requests that called release_slot, in order. */
  datatype Gw = Gw(lim: Limiter, bar: Bar, phase: map<nat, Phase>, next: nat, now: real, releases: seq<nat>)

  datatype Label =
    | NewRequest
    | QueueTimeout(id: nat)
    | QueueCancel(id: nat)
    | ResumeQueued(id: nat)
    | TimerStarts(g: nat)
    | TimerFires(g: nat)
    | FlushRuns
    | CancelWaiting(id: nat)
    | Proceed(id: nat, stream: bool)
    | ResponseFails(id: nat)
    | StreamStarts(id: nat)
    | StreamDropped(id: nat)
    | Finish(id: nat, how: Ending)
    | Tick(dt: real)

  function Start(c: Config): Gw {
    Gw(Init(c.maxConcurrency, c.lib), Empty(), map[], 0, 0.0, [])
  }

  predicate Pends(es: seq<Entry>, id: nat) { exists e | e in es :: e.id == id }

  /** Events of the pending list are set; requests still waiting there become runnable. */
  function Awaken(phase: map<nat, Phase>, es: seq<Entry>): map<nat, Phase> {
    map id | id in phase ::
      if phase[id].InBarrier? && Pends(es, id) then Dispatched(phase[id].t0) else phase[id]
  }

  /** A request goes on with a permit, straight into the barrier. */
  function Admit(c: Config, s: Gw, id: nat): Gw {
    s.(bar := Enter(s.bar, id, s.now, c.batchMax), phase := s.phase[id := InBarrier(s.now)])
  }

  function GiveBack(s: Gw, id: nat, how: Ending): Gw {
    s.(lim := Release(s.lim), phase := s.phase[id := Finished(how)], releases := s.releases + [id])
  }

  predicate Enabled(s: Gw, l: Label) {
    match l
    case NewRequest => true
    case QueueTimeout(id) => Find(s.lim.sem.waiters, id) < |s.lim.sem.waiters|
    case QueueCancel(id) => Find(s.lim.sem.waiters, id) < |s.lim.sem.waiters|
    case ResumeQueued(id) =>
      var i := Find(s.lim.sem.waiters, id);
      i < |s.lim.sem.waiters| && s.lim.sem.waiters[i].fut != Waiting
    case TimerStarts(g) => g in s.bar.timers && s.bar.timers[g].Created?
    case TimerFires(g) => g in s.bar.timers && s.bar.timers[g].Sleeping? && s.bar.timers[g].deadline <= s.now
    case FlushRuns => s.bar.flushTasks > 0
    case CancelWaiting(id) => id in s.phase && (s.phase[id].InBarrier? || s.phase[id].Dispatched?)
    case Proceed(id, _) => id in s.phase && s.phase[id].Dispatched?
    case ResponseFails(id) => id in s.phase && s.phase[id].Dispatched?
    case StreamStarts(id) => id in s.phase && s.phase[id].StreamReady?
    case StreamDropped(id) => id in s.phase && s.phase[id].StreamReady?
    case Finish(id, _) => id in s.phase && s.phase[id].Upstream?
    case Tick(dt) => dt > 0.0
  }

  function Next(c: Config, s: Gw, l: Label): Gw
    requires Enabled(s, l)
  {
    match l
    case NewRequest =>
      var (lim, answer) := Arrive(s.lim, s.next, GatewayCapacity(c.queueSize));
      var s' := s.(lim := lim, next := s.next + 1);
      if answer == Acquired then Admit(c, s', s.next) else s'
    case QueueTimeout(id) => s.(lim := Disturb(s.lim, id, TimedOut))
    case QueueCancel(id) => s.(lim := Disturb(s.lim, id, TaskCancelled))
    case ResumeQueued(id) =>
      var (lim, answer) := Resume(s.lim, id);
      if answer == Acquired then Admit(c, s.(lim := lim), id) else s.(lim := lim)
    case TimerStarts(g) => s.(bar := StartTimer(s.bar, g, s.now, c.window))
    case TimerFires(g) =>
      s.(bar := FireTimer(s.bar, g, s.now),
         phase := if g == s.bar.gen then Awaken(s.phase, s.bar.pending) else s.phase)
    case FlushRuns => s.(bar := RunFlush(s.bar, s.now), phase := Awaken(s.phase, s.bar.pending))
    case CancelWaiting(id) => s.(phase := s.phase[id := CancelledInBarrier])
    case Proceed(id, stream) => s.(phase := s.phase[id := if stream then StreamReady else Upstream])
    case ResponseFails(id) => GiveBack(s, id, ResponseNotBuilt)
    case StreamStarts(id) => s.(phase := s.phase[id := Upstream])
    case StreamDropped(id) => s.(phase := s.phase[id := StreamNeverStarted])
    case Finish(id, how) => GiveBack(s, id, how)
    case Tick(dt) => s.(now := s.now + dt)
  }

  // ----- runs -----

  predicate IsRun(c: Config, ls: seq<Label>)
    decreases |ls|, 0
  {
    ls == [] || (IsRun(c, ls[..|ls| - 1]) && Enabled(State(c, ls[..|ls| - 1]), ls[|ls| - 1]))
  }

  /** The state a run leads to. */
  function State(c: Config, ls: seq<Label>): Gw
    requires IsRun(c, ls)
    decreases |ls|, 1
  {
    if ls == [] then Start(c) else Next(c, State(c, ls[..|ls| - 1]), ls[|ls| - 1])
  }

  lemma Extend(c: Config, ls: seq<Label>, l: Label)
    requires IsRun(c, ls) && Enabled(State(c, ls), l)
    ensures IsRun(c, ls + [l]) && State(c, ls + [l]) == Next(c, State(c, ls), l)
  {
    assert (ls + [l])[..|ls|] == ls;
  }

  // ----- invariants -----

  predicate Unreturned(p: Phase) { !p.Finished? }

  predicate Held(p: Phase) { p.InBarrier? || p.Dispatched? || p.StreamReady? || p.Upstream? }

  predicate Lost(p: Phase) { p.CancelledInBarrier? || p.StreamNeverStarted? }

  ghost predicate QueueIds(s: Gw) {
    QueueFresh(s.lim.sem.waiters, s.phase.Keys, s.next)
  }

  /** Every request with a permit entered the barrier exactly once; exactly those that wait there, and
      those that were cancelled while waiting, are pending. */
  ghost predicate BarrierIds(s: Gw) {
    && (forall i, j | 0 <= i < j < |s.bar.arrivals| :: s.bar.arrivals[i].id != s.bar.arrivals[j].id)
    && (forall e | e in s.bar.arrivals :: e.id in s.phase)
    && (forall id | id in s.phase :: Pends(s.bar.arrivals, id))
    && (forall e | e in s.bar.pending :: e.id in s.phase &&
          (s.phase[e.id] == InBarrier(e.t0) || s.phase[e.id].CancelledInBarrier?))
    && (forall id | id in s.phase && s.phase[id].InBarrier? :: Pends(s.bar.pending, id))
  }

  ghost predicate PermitLaw(c: Config, s: Gw) {
    Permits(s.lim.sem) + |Those(s.phase, Unreturned)| == c.maxConcurrency
  }

  ghost predicate ReleaseLaw(s: Gw) {
    && (forall i, j | 0 <= i < j < |s.releases| :: s.releases[i] != s.releases[j])
    && (forall id :: id in s.releases <==> id in s.phase && s.phase[id].Finished?)
  }

  ghost predicate Inv(c: Config, s: Gw) {
    && LimiterInv(s.lim, GatewayCapacity(c.queueSize))
    && BarInv(s.bar, c.window, s.now)
    && QueueIds(s)
    && BarrierIds(s)
    && PermitLaw(c, s)
    && ReleaseLaw(s)
  }

  // ----- what one label does to the permits in use -----

  lemma AwakenKeepsPermits(phase: map<nat, Phase>, es: seq<Entry>)
    ensures Those(Awaken(phase, es), Unreturned) == Those(phase, Unreturned)
  {
  }

  /** A list of entries with distinct ids, all naming requests that have not returned their permit, is
      no longer than the number of those requests. */
  lemma {:induction false} DistinctFit(es: seq<Entry>, ids: set<nat>)
    requires forall i, j | 0 <= i < j < |es| :: es[i].id != es[j].id
    requires forall e | e in es :: e.id in ids
    ensures |es| <= |ids|
  {
    if es != [] {
      var e := es[|es| - 1];
      DistinctFit(es[..|es| - 1], ids - {e.id});
    }
  }

  lemma PendingDistinct(released: seq<Entry>, pending: seq<Entry>)
    requires var all := released + pending; forall i, j | 0 <= i < j < |all| :: all[i].id != all[j].id
    ensures forall i, j | 0 <= i < j < |pending| :: pending[i].id != pending[j].id
  {
    var all, n := released + pending, |released|;
    forall i, j | 0 <= i < j < |pending| ensures pending[i].id != pending[j].id {
      assert all[n + i] == pending[i] && all[n + j] == pending[j];
    }
  }

  /** Pending entries never outnumber the permits in use or lost. */
  lemma PendingFits(c: Config, s: Gw)
    requires Conserved(s.bar) && BarrierIds(s) && PermitLaw(c, s)
    ensures |s.bar.pending| <= |Those(s.phase, Unreturned)| <= c.maxConcurrency
  {
    PendingDistinct(Released(s.bar.batches), s.bar.pending);
    DistinctFit(s.bar.pending, Those(s.phase, Unreturned));
  }

  // ----- every label keeps the invariants -----

  lemma PendsAppended(es: seq<Entry>, e: Entry, id: nat)
    ensures Pends(es + [e], id) <==> Pends(es, id) || id == e.id
  {
    if Pends(es, id) {
      var x :| x in es && x.id == id;
      assert x in es + [e];
    }
    assert e in es + [e];
  }

  /** A request that goes on with a permit is a new member of the barrier. */
  lemma AdmitKeepsIds(s: Gw, s': Gw, id: nat)
    requires BarrierIds(s) && id !in s.phase
    requires s'.phase == s.phase[id := InBarrier(s.now)]
    requires s'.bar.arrivals == s.bar.arrivals + [Entry(id, s.now)]
    requires s'.bar.pending == s.bar.pending + [Entry(id, s.now)]
    ensures BarrierIds(s')
  {
    var e := Entry(id, s.now);
    forall x | x in s'.phase ensures Pends(s'.bar.arrivals, x) {
      PendsAppended(s.bar.arrivals, e, x);
    }
    forall x | x in s'.phase && s'.phase[x].InBarrier? ensures Pends(s'.bar.pending, x) {
      PendsAppended(s.bar.pending, e, x);
    }
  }

  lemma AdmitKeeps(c: Config, s: Gw, id: nat)
    requires LimiterInv(s.lim, GatewayCapacity(c.queueSize)) && BarInv(s.bar, c.window, s.now)
    requires QueueIds(s) && BarrierIds(s) && ReleaseLaw(s) && id < s.next && id !in s.phase
    requires forall w | w in s.lim.sem.waiters :: w.id != id
    requires Permits(s.lim.sem) + |Those(s.phase, Unreturned)| + 1 == c.maxConcurrency
    ensures Inv(c, Admit(c, s, id))
  {
    EnterKeeps(s.bar, c.window, s.now, id, c.batchMax);
    EntryChanged(s.phase, id, InBarrier(s.now), Unreturned);
    AdmitKeepsIds(s, Admit(c, s, id), id);
    FreshAfterTaking(s.lim.sem.waiters, s.phase.Keys, s.next, id);
    assert Admit(c, s, id).phase.Keys == s.phase.Keys + {id};
  }

  lemma ArrivalKeeps(c: Config, s: Gw)
    requires Inv(c, s)
    ensures Inv(c, Next(c, s, NewRequest))
  {
    var cap := GatewayCapacity(c.queueSize);
    StepKeeps(s.lim, Arrival(s.next), cap);
    FreshAfterArrival(s.lim, s.phase.Keys, s.next, cap);
    var (lim, answer) := Arrive(s.lim, s.next, cap);
    if answer == Acquired {
      AdmitKeeps(c, s.(lim := lim, next := s.next + 1), s.next);
    }
  }

  lemma DisturbanceKeeps(c: Config, s: Gw, id: nat, why: Interrupt)
    requires Inv(c, s) && why != NoInterrupt
    ensures Inv(c, s.(lim := Disturb(s.lim, id, why)))
  {
    var cap := GatewayCapacity(c.queueSize);
    StepKeeps(s.lim, if why == TimedOut then Timeout(id) else Cancel(id), cap);
    FreshAfterDisturbance(s.lim, s.phase.Keys, s.next, id, why);
  }

  /** The limiter, now lim, has let a queued request run again. */
  ghost predicate Resumed(c: Config, s: Gw, lim: Limiter, id: nat, acquired: bool) {
    && LimiterInv(lim, GatewayCapacity(c.queueSize))
    && QueueFresh(lim.sem.waiters, s.phase.Keys, s.next)
    && (forall w | w in lim.sem.waiters :: w.id != id) && id < s.next && id !in s.phase
    && Permits(lim.sem) + |Those(s.phase, Unreturned)| + (if acquired then 1 else 0) == c.maxConcurrency
  }

  lemma ResumptionResumes(c: Config, s: Gw, id: nat)
    requires Inv(c, s) && Enabled(s, ResumeQueued(id))
    ensures Resumed(c, s, Resume(s.lim, id).0, id, Resume(s.lim, id).1 == Acquired)
  {
    StepKeeps(s.lim, Resumption(id), GatewayCapacity(c.queueSize));
    FreshAfterLeaving(s.lim, s.phase.Keys, s.next, id);
  }

  lemma ResumedKeeps(c: Config, s: Gw, lim: Limiter, id: nat, acquired: bool)
    requires Inv(c, s) && Resumed(c, s, lim, id, acquired)
    ensures Inv(c, if acquired then Admit(c, s.(lim := lim), id) else s.(lim := lim))
  {
    if acquired {
      AdmitKeeps(c, s.(lim := lim), id);
    }
  }

  lemma ResumptionKeeps(c: Config, s: Gw, id: nat)
    requires Inv(c, s) && Enabled(s, ResumeQueued(id))
    ensures Inv(c, Next(c, s, ResumeQueued(id)))
  {
    ResumptionResumes(c, s, id);
    ResumedKeeps(c, s, Resume(s.lim, id).0, id, Resume(s.lim, id).1 == Acquired);
  }

  /** Releasing everybody who waits empties the pending list and leaves nobody waiting behind it. */
  lemma ReleaseKeeps(c: Config, s: Gw, bar: Bar)
    requires Inv(c, s) && BarInv(bar, c.window, s.now)
    requires bar.pending == [] && bar.arrivals == s.bar.arrivals
    ensures Inv(c, s.(bar := bar, phase := Awaken(s.phase, s.bar.pending)))
  {
    AwakenKeepsPermits(s.phase, s.bar.pending);
  }

  lemma BarrierLabelKeeps(c: Config, s: Gw, l: Label)
    requires Inv(c, s) && Enabled(s, l)
    requires l.TimerStarts? || l.TimerFires? || l.FlushRuns?
    ensures Inv(c, Next(c, s, l))
  {
    match l
    case TimerStarts(g) => StartTimerKeeps(s.bar, c.window, s.now, g);
    case TimerFires(g) =>
      FireTimerKeeps(s.bar, c.window, s.now, g);
      if g == s.bar.gen {
        ReleaseKeeps(c, s, FireTimer(s.bar, g, s.now));
      }
    case FlushRuns =>
      RunFlushKeeps(s.bar, c.window, s.now);
      ReleaseKeeps(c, s, RunFlush(s.bar, s.now));
  }

  lemma MoveKeepsIds(s: Gw, id: nat, p: Phase)
    requires BarrierIds(s) && id in s.phase && !p.InBarrier?
    requires p.CancelledInBarrier? || !Pends(s.bar.pending, id)
    ensures BarrierIds(s.(phase := s.phase[id := p]))
  {
  }

  /** A request past admission moves on, keeping its permit. */
  lemma MoveKeeps(c: Config, s: Gw, id: nat, p: Phase)
    requires Inv(c, s) && id in s.phase && Unreturned(s.phase[id]) && Unreturned(p) && !p.InBarrier?
    requires !s.phase[id].InBarrier? || p.CancelledInBarrier?
    requires !s.phase[id].CancelledInBarrier?
    ensures Inv(c, s.(phase := s.phase[id := p]))
  {
    EntryChanged(s.phase, id, p, Unreturned);
    if !s.phase[id].InBarrier? {
      NotPending(c, s, id);
    }
    MoveKeepsIds(s, id, p);
  }

  lemma NotPending(c: Config, s: Gw, id: nat)
    requires Inv(c, s) && id in s.phase && !s.phase[id].InBarrier? && !s.phase[id].CancelledInBarrier?
    ensures !Pends(s.bar.pending, id)
  {
  }

  lemma ReleaseRecorded(s: Gw, id: nat, how: Ending)
    requires ReleaseLaw(s) && id in s.phase && !s.phase[id].Finished?
    ensures ReleaseLaw(GiveBack(s, id, how))
  {
    var s' := GiveBack(s, id, how);
    assert id !in s.releases;
    forall x ensures x in s'.releases <==> x in s'.phase && s'.phase[x].Finished? {
      assert x in s'.releases <==> x in s.releases || x == id;
    }
  }

  lemma GiveBackKeeps(c: Config, s: Gw, id: nat, how: Ending)
    requires Inv(c, s) && id in s.phase && (s.phase[id].Dispatched? || s.phase[id].Upstream?)
    ensures Inv(c, GiveBack(s, id, how))
  {
    StepKeeps(s.lim, Releasing, GatewayCapacity(c.queueSize));
    EntryChanged(s.phase, id, Finished(how), Unreturned);
    NotPending(c, s, id);
    FreshAfterRelease(s.lim, s.phase.Keys, s.next);
    assert GiveBack(s, id, how).phase.Keys == s.phase.Keys;
    ReleaseRecorded(s, id, how);
  }

  lemma StepKeepsInv(c: Config, s: Gw, l: Label)
    requires Inv(c, s) && Enabled(s, l)
    ensures Inv(c, Next(c, s, l))
  {
    match l
    case NewRequest => ArrivalKeeps(c, s);
    case QueueTimeout(id) => DisturbanceKeeps(c, s, id, TimedOut);
    case QueueCancel(id) => DisturbanceKeeps(c, s, id, TaskCancelled);
    case ResumeQueued(id) => ResumptionKeeps(c, s, id);
    case TimerStarts(_) => BarrierLabelKeeps(c, s, l);
    case TimerFires(_) => BarrierLabelKeeps(c, s, l);
    case FlushRuns => BarrierLabelKeeps(c, s, l);
    case CancelWaiting(id) => MoveKeeps(c, s, id, CancelledInBarrier);
    case Proceed(id, stream) => MoveKeeps(c, s, id, if stream then StreamReady else Upstream);
    case ResponseFails(id) => GiveBackKeeps(c, s, id, ResponseNotBuilt);
    case StreamStarts(id) => MoveKeeps(c, s, id, Upstream);
    case StreamDropped(id) => MoveKeeps(c, s, id, StreamNeverStarted);
    case Finish(id, how) => GiveBackKeeps(c, s, id, how);
    case Tick(dt) =>
  }

  lemma StartHolds(c: Config)
    ensures Inv(c, Start(c))
  {
    var s := Start(c);
    assert Those(s.phase, Unreturned) == {};
    assert PermitLaw(c, s) && ReleaseLaw(s);
    assert QueueIds(s) && BarrierIds(s);
    assert BarInv(s.bar, c.window, s.now);
  }

  lemma {:induction false} EveryRunKeepsInv(c: Config, ls: seq<Label>)
    requires IsRun(c, ls)
    ensures Inv(c, State(c, ls))
  {
    if ls == [] {
      StartHolds(c);
    } else {
      EveryRunKeepsInv(c, ls[..|ls| - 1]);
      StepKeepsInv(c, State(c, ls[..|ls| - 1]), ls[|ls| - 1]);
    }
  }
}
