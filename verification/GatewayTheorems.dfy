/** What the gateway guarantees over every run, in whatever order ready tasks are run. */
module GatewayTheorems {
  import opened Admission
  import opened Barrier
  import opened Gateway
  import opened Tally

  // ----- permits -----

  /** Labels after which a permit is never given back: a cancellation inside the barrier, and a stream
      dropped before its first iteration. */
  function Losses(ls: seq<Label>): nat {
    if ls == [] then 0
    else Losses(ls[..|ls| - 1]) +
         if ls[|ls| - 1].CancelWaiting? || ls[|ls| - 1].StreamDropped? then 1 else 0
  }

  lemma AwakenKeepsLost(phase: map<nat, Phase>, es: seq<Entry>)
    ensures Those(Awaken(phase, es), Lost) == Those(phase, Lost)
  {
  }

  lemma LossStep(c: Config, s: Gw, l: Label)
    requires QueueIds(s) && SemInv(s.lim.sem) && Enabled(s, l)
    ensures |Those(Next(c, s, l).phase, Lost)| ==
            |Those(s.phase, Lost)| + if l.CancelWaiting? || l.StreamDropped? then 1 else 0
  {
    match l
    case NewRequest => EntryChanged(s.phase, s.next, InBarrier(s.now), Lost);
    case ResumeQueued(id) =>
      FreshAfterLeaving(s.lim, s.phase.Keys, s.next, id);
      EntryChanged(s.phase, id, InBarrier(s.now), Lost);
    case TimerFires(_) => AwakenKeepsLost(s.phase, s.bar.pending);
    case FlushRuns => AwakenKeepsLost(s.phase, s.bar.pending);
    case CancelWaiting(id) => EntryChanged(s.phase, id, CancelledInBarrier, Lost);
    case Proceed(id, stream) => EntryChanged(s.phase, id, if stream then StreamReady else Upstream, Lost);
    case ResponseFails(id) => EntryChanged(s.phase, id, Finished(ResponseNotBuilt), Lost);
    case StreamStarts(id) => EntryChanged(s.phase, id, Upstream, Lost);
    case StreamDropped(id) => EntryChanged(s.phase, id, StreamNeverStarted, Lost);
    case Finish(id, how) => EntryChanged(s.phase, id, Finished(how), Lost);
    case QueueTimeout(_) =>
    case QueueCancel(_) =>
    case TimerStarts(_) =>
    case Tick(_) =>
  }

  lemma {:induction false} LossesCounted(c: Config, ls: seq<Label>)
    requires IsRun(c, ls)
    ensures |Those(State(c, ls).phase, Lost)| == Losses(ls)
  {
    if ls != [] {
      var before := ls[..|ls| - 1];
      LossesCounted(c, before);
      EveryRunKeepsInv(c, before);
      LossStep(c, State(c, before), ls[|ls| - 1]);
    }
  }

  /** Over every run the permits that are free, granted to a queued task that has not run yet, and in
      use, together with one for every loss, are the configured number.  So no more requests than
      that are ever past admission, and the pool is whole again when all is done exactly if nothing
      was lost.  Every finished request, and no other, released its permit, exactly once. */
  lemma {:induction false} PermitsAreConserved(c: Config, ls: seq<Label>)
    requires IsRun(c, ls)
    ensures var s := State(c, ls);
      && s.lim.sem.value + GrantedCount(s.lim.sem.waiters) + |Those(s.phase, Held)| + Losses(ls) == c.maxConcurrency
      && (forall id :: id in s.releases <==> id in s.phase && s.phase[id].Finished?)
      && (forall i, j | 0 <= i < j < |s.releases| :: s.releases[i] != s.releases[j])
  {
    EveryRunKeepsInv(c, ls);
    LossesCounted(c, ls);
    KindsAdd(State(c, ls).phase, Held, Lost, Unreturned);
  }

  /** A queued request waits only while it has to: when nobody in the queue holds a grant, every permit
      is in use or lost. */
  lemma WaitingMeansBusy(c: Config, ls: seq<Label>)
    requires IsRun(c, ls)
    requires FirstWaiting(State(c, ls).lim.sem.waiters) < |State(c, ls).lim.sem.waiters|
    requires !HasGranted(State(c, ls).lim.sem.waiters)
    ensures |Those(State(c, ls).phase, Held)| + Losses(ls) == c.maxConcurrency
  {
    PermitsAreConserved(c, ls);
    EveryRunKeepsInv(c, ls);
    NoGrantsCounted(State(c, ls).lim.sem.waiters);
  }

  lemma {:induction false} NoGrantsCounted(ws: seq<Waiter>)
    requires !HasGranted(ws)
    ensures GrantedCount(ws) == 0
  {
    if ws != [] {
      assert ws[0].fut != Granted;
      assert forall i | 0 <= i < |ws| - 1 :: ws[1..][i] == ws[i + 1];
      NoGrantsCounted(ws[1..]);
    }
  }

  /** The queue counter is the queue's length plus the requests cancelled in it and never exceeds the
      configured size; grants go out in arrival order. */
  lemma {:induction false} QueueLaw(c: Config, ls: seq<Label>)
    requires IsRun(c, ls)
    ensures var l := State(c, ls).lim;
      && l.count == |l.sem.waiters| + l.leaked <= Max(0, c.queueSize)
      && (forall i, j | 0 <= i < j < |l.sem.waiters| ::
            && l.sem.waiters[i].id < l.sem.waiters[j].id
            && (l.sem.waiters[i].fut == Waiting ==> l.sem.waiters[j].fut != Granted))
  {
    EveryRunKeepsInv(c, ls);
  }

  // ----- who is released, and by what -----

  lemma {:induction false} ReleasedMember(batches: seq<Batch>, e: Entry)
    requires e in Released(batches)
    ensures exists k :: 0 <= k < |batches| && e in batches[k].entries
  {
    if e !in batches[|batches| - 1].entries {
      ReleasedMember(batches[..|batches| - 1], e);
      var k :| 0 <= k < |batches| - 1 && e in batches[..|batches| - 1][k].entries;
      assert batches[k] == batches[..|batches| - 1][k];
    }
  }

  lemma {:induction false} BatchMember(batches: seq<Batch>, k: nat, e: Entry)
    requires k < |batches| && e in batches[k].entries
    ensures e in Released(batches)
  {
    if k < |batches| - 1 {
      BatchMember(batches[..|batches| - 1], k, e);
    }
  }

  ghost predicate DistinctIds(es: seq<Entry>) {
    forall i, j | 0 <= i < j < |es| :: es[i].id != es[j].id
  }

  lemma {:induction false} OneBatchOnly(batches: seq<Batch>, k: nat, m: nat, id: nat)
    requires k < m < |batches| && DistinctIds(Released(batches)) && Pends(batches[k].entries, id)
    ensures !Pends(batches[m].entries, id)
  {
    var before := batches[..|batches| - 1];
    if m < |batches| - 1 {
      assert DistinctIds(Released(before)) by {
        assert forall i | 0 <= i < |Released(before)| :: Released(before)[i] == Released(batches)[i];
      }
      OneBatchOnly(before, k, m, id);
    } else {
      var e :| e in batches[k].entries && e.id == id;
      BatchMember(before, k, e);
      var i :| 0 <= i < |Released(before)| && Released(before)[i] == e;
      assert Released(batches)[i] == e;
      var last := batches[m].entries;
      forall j | 0 <= j < |last| ensures last[j].id != id {
        assert Released(batches)[|Released(before)| + j] == last[j];
      }
    }
  }

  /** Conservation in the barrier: the batches in order, followed by the pending list, are the arrivals
      in order; the cumulative figures count exactly that; and a request that got past the barrier
      was a member of exactly one batch. */
  lemma {:induction false} BarrierConserves(c: Config, ls: seq<Label>)
    requires IsRun(c, ls)
    ensures var b := State(c, ls).bar;
      && Released(b.batches) + b.pending == b.arrivals
      && DistinctIds(b.arrivals)
      && b.totalDispatches == |b.batches| <= b.totalReqs == |Released(b.batches)|
    ensures forall id | id in State(c, ls).phase && !State(c, ls).phase[id].InBarrier?
                        && !State(c, ls).phase[id].CancelledInBarrier? ::
              exists k :: 0 <= k < |State(c, ls).bar.batches| && Pends(State(c, ls).bar.batches[k].entries, id)
                && forall m | 0 <= m < |State(c, ls).bar.batches| && m != k ::
                     !Pends(State(c, ls).bar.batches[m].entries, id)
  {
    EveryRunKeepsInv(c, ls);
    var s := State(c, ls);
    var batches := s.bar.batches;
    assert DistinctIds(Released(batches)) by {
      assert forall i | 0 <= i < |Released(batches)| :: Released(batches)[i] == s.bar.arrivals[i];
    }
    forall id | id in s.phase && !s.phase[id].InBarrier? && !s.phase[id].CancelledInBarrier?
      ensures exists k :: 0 <= k < |batches| && Pends(batches[k].entries, id)
                && forall m | 0 <= m < |batches| && m != k :: !Pends(batches[m].entries, id)
    {
      var e :| e in s.bar.arrivals && e.id == id;
      assert e !in s.bar.pending;
      ReleasedMember(batches, e);
      var k :| 0 <= k < |batches| && e in batches[k].entries;
      assert Pends(batches[k].entries, id);
      forall m | 0 <= m < |batches| && m != k ensures !Pends(batches[m].entries, id) {
        if k < m {
          OneBatchOnly(batches, k, m, id);
        } else if Pends(batches[m].entries, id) {
          OneBatchOnly(batches, m, k, id);
        }
      }
    }
  }

  // ----- no lost wake-up -----

  /** A sequence of labels that can be taken from a state on, and where it leads. */
  predicate Runs(c: Config, s: Gw, ls: seq<Label>)
    decreases |ls|
  {
    ls == [] || (Enabled(s, ls[0]) && Runs(c, Next(c, s, ls[0]), ls[1..]))
  }

  function Reach(c: Config, s: Gw, ls: seq<Label>): Gw
    requires Runs(c, s, ls)
    decreases |ls|
  {
    if ls == [] then s else Reach(c, Next(c, s, ls[0]), ls[1..])
  }

  /** What the clock and the current timer do next; no other label occurs in it. */
  function WayOut(c: Config, s: Gw): seq<Label>
    requires s.bar.gen in s.bar.timers
  {
    var g := s.bar.gen;
    match s.bar.timers[g]
    case Created => [TimerStarts(g)] + WakeAt(g, s.now + c.window, s.now)
    case Sleeping(deadline) => WakeAt(g, deadline, s.now)
  }

  function WakeAt(g: nat, deadline: real, now: real): seq<Label> {
    if deadline > now then [Tick(deadline - now), TimerFires(g)] else [TimerFires(g)]
  }

  ghost predicate AllReleased(before: Gw, after: Gw) {
    after.bar.pending == [] &&
    forall id | id in before.phase && before.phase[id].InBarrier? ::
      id in after.phase && after.phase[id] == Dispatched(before.phase[id].t0)
  }

  lemma RunsOn(c: Config, s: Gw, l: Label, more: seq<Label>)
    requires Enabled(s, l) && Runs(c, Next(c, s, l), more)
    ensures Runs(c, s, [l] + more) && Reach(c, s, [l] + more) == Reach(c, Next(c, s, l), more)
  {
    assert ([l] + more)[1..] == more;
  }

  lemma FiringReleases(c: Config, s: Gw)
    requires BarrierIds(s) && Enabled(s, TimerFires(s.bar.gen))
    ensures var more := [TimerFires(s.bar.gen)];
      Runs(c, s, more) && AllReleased(s, Reach(c, s, more))
  {
    RunsOn(c, s, TimerFires(s.bar.gen), []);
    assert [TimerFires(s.bar.gen)] + [] == [TimerFires(s.bar.gen)];
  }

  lemma SleepingTimerReleases(c: Config, s: Gw, d: real)
    requires BarrierIds(s) && s.bar.gen in s.bar.timers && s.bar.timers[s.bar.gen] == Sleeping(d)
    ensures var more := WakeAt(s.bar.gen, d, s.now);
      Runs(c, s, more) && AllReleased(s, Reach(c, s, more))
  {
    var g := s.bar.gen;
    if d > s.now {
      var s' := Next(c, s, Tick(d - s.now));
      FiringReleases(c, s');
      RunsOn(c, s, Tick(d - s.now), [TimerFires(g)]);
      assert [Tick(d - s.now)] + [TimerFires(g)] == WakeAt(g, d, s.now);
    } else {
      FiringReleases(c, s);
    }
  }

  lemma CreatedTimerReleases(c: Config, s: Gw)
    requires BarrierIds(s) && s.bar.gen in s.bar.timers && s.bar.timers[s.bar.gen].Created?
    ensures Runs(c, s, WayOut(c, s)) && AllReleased(s, Reach(c, s, WayOut(c, s)))
  {
    var g := s.bar.gen;
    var s' := Next(c, s, TimerStarts(g));
    SleepingTimerReleases(c, s', s.now + c.window);
    assert s'.bar.timers[g] == Sleeping(s.now + c.window) && s'.bar.gen == g && s'.now == s.now && s'.phase == s.phase;
    var more := WakeAt(g, s.now + c.window, s.now);
    assert Runs(c, s', more);
    RunsOn(c, s, TimerStarts(g), more);
    assert WayOut(c, s) == [TimerStarts(g)] + more;
  }

  /** No lost wake-up: from every reachable state in which somebody waits, the timer that is already
      there and the clock suffice to release everybody; no further arrival is needed. */
  lemma {:induction false} NobodyIsStranded(c: Config, ls: seq<Label>)
    requires IsRun(c, ls) && State(c, ls).bar.pending != []
    ensures State(c, ls).bar.gen in State(c, ls).bar.timers
    ensures var s := State(c, ls);
      Runs(c, s, WayOut(c, s)) && AllReleased(s, Reach(c, s, WayOut(c, s)))
  {
    EveryRunKeepsInv(c, ls);
    var s := State(c, ls);
    match s.bar.timers[s.bar.gen]
    case Created => CreatedTimerReleases(c, s);
    case Sleeping(d) => SleepingTimerReleases(c, s, d);
  }

  // ----- batch sizes -----

  /** What one label adds to the released batches: nothing, or the whole pending list. */
  lemma BatchStep(c: Config, s: Gw, l: Label)
    requires Enabled(s, l)
    ensures var s' := Next(c, s, l);
      || s'.bar.batches == s.bar.batches
      || (s.bar.pending != [] && l.TimerFires? && s'.bar.batches == s.bar.batches + [Batch(s.bar.pending, s.now, ByTimer(l.g))])
      || (s.bar.pending != [] && l.FlushRuns? && s'.bar.batches == s.bar.batches + [Batch(s.bar.pending, s.now, BySize)])
  {
  }

  lemma {:induction false} BatchesWithinPermits(c: Config, ls: seq<Label>)
    requires IsRun(c, ls)
    ensures forall b | b in State(c, ls).bar.batches :: |b.entries| <= c.maxConcurrency
  {
    if ls != [] {
      var before := ls[..|ls| - 1];
      BatchesWithinPermits(c, before);
      EveryRunKeepsInv(c, before);
      PendingFits(c, State(c, before));
      BatchStep(c, State(c, before), ls[|ls| - 1]);
    }
  }

  /** A label that leaves the list shorter than the size limit starts no flush task. */
  lemma NoFlushStarted(c: Config, s: Gw, l: Label)
    requires Enabled(s, l) && s.bar.flushTasks == 0
    requires |Next(c, s, l).bar.pending| < c.batchMax || Next(c, s, l).bar.pending == []
    ensures Next(c, s, l).bar.flushTasks == 0
  {
  }

  lemma {:induction false} TooFewForSizeTrigger(c: Config, ls: seq<Label>)
    requires IsRun(c, ls) && (c.maxConcurrency == 0 || c.maxConcurrency < c.batchMax)
    ensures State(c, ls).bar.flushTasks == 0
    ensures forall b | b in State(c, ls).bar.batches :: b.cause.ByTimer?
  {
    if ls != [] {
      var before, l := ls[..|ls| - 1], ls[|ls| - 1];
      TooFewForSizeTrigger(c, before);
      EveryRunKeepsInv(c, ls);
      PendingFits(c, State(c, ls));
      NoFlushStarted(c, State(c, before), l);
      BatchStep(c, State(c, before), l);
    }
  }

  /** When fewer requests can be past admission than the size limit, as in both shipped configurations,
      the size trigger never fires: every dispatch is made by the timer of its own batch, whose first
      member has waited at least the window, and has at most as many members as there are permits. */
  lemma TimerAloneDispatches(c: Config, ls: seq<Label>)
    requires IsRun(c, ls) && c.maxConcurrency < c.batchMax
    ensures State(c, ls).bar.flushTasks == 0
    ensures forall b | b in State(c, ls).bar.batches ::
      && b.cause.ByTimer?
      && 1 <= |b.entries| <= c.maxConcurrency
      && b.at >= b.entries[0].t0 + c.window
  {
    TooFewForSizeTrigger(c, ls);
    BatchesWithinPermits(c, ls);
    EveryRunKeepsInv(c, ls);
  }

  lemma {:induction false} NoEmptyBatch(c: Config, ls: seq<Label>)
    requires IsRun(c, ls)
    ensures forall b | b in State(c, ls).bar.batches :: |b.entries| > 0
  {
    EveryRunKeepsInv(c, ls);
    var batches := State(c, ls).bar.batches;
    forall b | b in batches ensures |b.entries| > 0 {
      var i :| 0 <= i < |batches| && batches[i] == b;
      assert GoodBatch(batches[i], c.window);
    }
  }

  lemma FewFit(c: Config, ls: seq<Label>)
    requires IsRun(c, ls) && (c.maxConcurrency == 0 || c.maxConcurrency <= c.batchMax)
    ensures forall b | b in State(c, ls).bar.batches :: |b.entries| <= c.batchMax
  {
    BatchesWithinPermits(c, ls);
    NoEmptyBatch(c, ls);
  }
}
