/** What can happen to a request of the gateway from any reachable state: how its wait in the queue ends, how its
    exchange ends, and how permits are lost until none is left. */
module GatewayProgress {
  import opened Admission
  import opened AdmissionAnswers
  import opened Barrier
  import opened Gateway
  import opened GatewayTheorems
  import opened Tally

  ghost predicate Queued(s: Gw, id: nat) { InQueue(s.lim, id) }

  // ----- from the queue -----

  /** A queued request whose timeout expires, and whose task is not cancelled, leaves the queue when it runs, has no
      permit and gives up its place. */
  lemma TimeoutEndsWait(c: Config, ls: seq<Label>, id: nat)
    requires IsRun(c, ls) && Queued(State(c, ls), id) && WaiterOf(State(c, ls).lim, id).intr != TaskCancelled
    ensures var after := ls + [QueueTimeout(id)] + [ResumeQueued(id)];
      && IsRun(c, after)
      && !Queued(State(c, after), id) && id !in State(c, after).phase
      && State(c, after).lim.count == State(c, ls).lim.count - 1
      && State(c, after).lim.leaked == State(c, ls).lim.leaked
  {
    EveryRunKeepsInv(c, ls);
    DisturbedExactly(State(c, ls).lim, id, TimedOut);
    Extend(c, ls, QueueTimeout(id));
    LeavesQueue(c, ls + [QueueTimeout(id)], id);
  }

  /** One whose task is cancelled leaves the queue as well, but its place stays taken. */
  lemma CancelEndsWait(c: Config, ls: seq<Label>, id: nat)
    requires IsRun(c, ls) && Queued(State(c, ls), id)
    ensures var after := ls + [QueueCancel(id)] + [ResumeQueued(id)];
      && IsRun(c, after)
      && !Queued(State(c, after), id) && id !in State(c, after).phase
      && State(c, after).lim.count == State(c, ls).lim.count
      && State(c, after).lim.leaked == State(c, ls).lim.leaked + 1
  {
    EveryRunKeepsInv(c, ls);
    DisturbedExactly(State(c, ls).lim, id, TaskCancelled);
    Extend(c, ls, QueueCancel(id));
    LeavesQueue(c, ls + [QueueCancel(id)], id);
  }

  lemma LeavesQueue(c: Config, ls: seq<Label>, id: nat)
    requires IsRun(c, ls) && Queued(State(c, ls), id)
    requires WaiterOf(State(c, ls).lim, id).fut != Waiting && WaiterOf(State(c, ls).lim, id).intr != NoInterrupt
    ensures var after, out := ls + [ResumeQueued(id)], WaiterOf(State(c, ls).lim, id).intr == TimedOut;
      && IsRun(c, after) && !Queued(State(c, after), id) && id !in State(c, after).phase
      && State(c, after).lim.count == State(c, ls).lim.count - (if out then 1 else 0)
      && State(c, after).lim.leaked == State(c, ls).lim.leaked + (if out then 0 else 1)
  {
    var s := State(c, ls);
    EveryRunKeepsInv(c, ls);
    FreshAfterLeaving(s.lim, s.phase.Keys, s.next, id);
    Extend(c, ls, ResumeQueued(id));
  }

  /** One that has been granted a permit, with nothing else happening to it, goes into the barrier. */
  lemma GrantEndsWait(c: Config, ls: seq<Label>, id: nat)
    requires IsRun(c, ls) && Queued(State(c, ls), id)
    requires WaiterOf(State(c, ls).lim, id).fut == Granted && WaiterOf(State(c, ls).lim, id).intr == NoInterrupt
    ensures var s, after := State(c, ls), ls + [ResumeQueued(id)];
      && IsRun(c, after) && !Queued(State(c, after), id)
      && State(c, after).phase == s.phase[id := InBarrier(s.now)]
      && State(c, after).bar.pending == s.bar.pending + [Entry(id, s.now)]
  {
    var s := State(c, ls);
    EveryRunKeepsInv(c, ls);
    FreshAfterLeaving(s.lim, s.phase.Keys, s.next, id);
    Extend(c, ls, ResumeQueued(id));
  }

  /** A new request goes straight into the barrier exactly if a permit is free and no live waiter is ahead. */
  lemma ServedAtOnceExactly(c: Config, ls: seq<Label>)
    requires IsRun(c, ls)
    ensures var s, after := State(c, ls), ls + [NewRequest];
      && IsRun(c, after)
      && (s.next in State(c, after).phase <==>
            s.lim.sem.value > 0 && forall w | w in s.lim.sem.waiters :: w.fut == Cancelled)
      && (s.next in State(c, after).phase ==> State(c, after).phase[s.next] == InBarrier(s.now))
  {
    EveryRunKeepsInv(c, ls);
    Extend(c, ls, NewRequest);
  }

  // ----- from the barrier -----

  /** A request that has been released from the barrier can come to every end of a plain exchange, and gives its
      permit back in the end. */
  lemma PlainCanEnd(c: Config, ls: seq<Label>, id: nat, how: Ending)
    requires IsRun(c, ls) && id in State(c, ls).phase && State(c, ls).phase[id].Dispatched?
    ensures var s, after := State(c, ls), ls + [Proceed(id, false)] + [Finish(id, how)];
      && IsRun(c, after)
      && State(c, after).phase == s.phase[id := Finished(how)] && State(c, after).releases == s.releases + [id]
      && State(c, after).lim == Release(s.lim)
  {
    var s := State(c, ls);
    Extend(c, ls, Proceed(id, false));
    Extend(c, ls + [Proceed(id, false)], Finish(id, how));
    assert s.phase[id := Upstream][id := Finished(how)] == s.phase[id := Finished(how)];
  }

  /** And to every end of a streamed one. */
  lemma StreamCanEnd(c: Config, ls: seq<Label>, id: nat, how: Ending)
    requires IsRun(c, ls) && id in State(c, ls).phase && State(c, ls).phase[id].Dispatched?
    ensures var s, after := State(c, ls), ls + [Proceed(id, true)] + [StreamStarts(id)] + [Finish(id, how)];
      && IsRun(c, after)
      && State(c, after).phase == s.phase[id := Finished(how)] && State(c, after).releases == s.releases + [id]
      && State(c, after).lim == Release(s.lim)
  {
    var s := State(c, ls);
    var r1 := ls + [Proceed(id, true)];
    Extend(c, ls, Proceed(id, true));
    Extend(c, r1, StreamStarts(id));
    Extend(c, r1 + [StreamStarts(id)], Finish(id, how));
    assert s.phase[id := StreamReady][id := Upstream][id := Finished(how)] == s.phase[id := Finished(how)];
  }

  /** If its response cannot be built, the permit comes back at once. */
  lemma ResponseCanFail(c: Config, ls: seq<Label>, id: nat)
    requires IsRun(c, ls) && id in State(c, ls).phase && State(c, ls).phase[id].Dispatched?
    ensures var s, after := State(c, ls), ls + [ResponseFails(id)];
      && IsRun(c, after)
      && State(c, after).phase == s.phase[id := Finished(ResponseNotBuilt)]
      && State(c, after).releases == s.releases + [id] && State(c, after).lim == Release(s.lim)
  {
    Extend(c, ls, ResponseFails(id));
  }

  // ----- losing permits -----

  /** A request in the barrier, released or not, can be cancelled, and then its permit is lost. */
  lemma CancelLoses(c: Config, ls: seq<Label>, id: nat)
    requires IsRun(c, ls) && id in State(c, ls).phase && (State(c, ls).phase[id].InBarrier? || State(c, ls).phase[id].Dispatched?)
    ensures var after := ls + [CancelWaiting(id)];
      && IsRun(c, after) && Losses(after) == Losses(ls) + 1
      && State(c, after).lim == State(c, ls).lim && State(c, after).phase == State(c, ls).phase[id := CancelledInBarrier]
  {
    Extend(c, ls, CancelWaiting(id));
    assert (ls + [CancelWaiting(id)])[..|ls|] == ls;
  }

  /** A stream that is dropped before its first iteration loses its permit as well. */
  lemma DroppedStreamLoses(c: Config, ls: seq<Label>, id: nat)
    requires IsRun(c, ls) && id in State(c, ls).phase && State(c, ls).phase[id].Dispatched?
    ensures var after := ls + [Proceed(id, true)] + [StreamDropped(id)];
      && IsRun(c, after) && Losses(after) == Losses(ls) + 1
      && State(c, after).lim == State(c, ls).lim && State(c, after).phase == State(c, ls).phase[id := StreamNeverStarted]
  {
    var s, r1 := State(c, ls), ls + [Proceed(id, true)];
    Extend(c, ls, Proceed(id, true));
    Extend(c, r1, StreamDropped(id));
    assert r1[..|ls|] == ls && (r1 + [StreamDropped(id)])[..|r1|] == r1;
    assert s.phase[id := StreamReady][id := StreamNeverStarted] == s.phase[id := StreamNeverStarted];
  }

  /** Only streams are lost that way. */
  lemma {:induction false} OnlyStreamsAreDropped(c: Config, ls: seq<Label>, id: nat)
    requires IsRun(c, ls) && id in State(c, ls).phase && (State(c, ls).phase[id].StreamReady? || State(c, ls).phase[id].StreamNeverStarted?)
    ensures Proceed(id, true) in ls
  {
    if ls != [] {
      var before, l := ls[..|ls| - 1], ls[|ls| - 1];
      if l != Proceed(id, true) {
        StreamWasThere(c, State(c, before), l, id);
        OnlyStreamsAreDropped(c, before, id);
      }
    }
  }

  lemma StreamWasThere(c: Config, s: Gw, l: Label, id: nat)
    requires Enabled(s, l) && l != Proceed(id, true) && id in Next(c, s, l).phase
    requires Next(c, s, l).phase[id].StreamReady? || Next(c, s, l).phase[id].StreamNeverStarted?
    ensures id in s.phase && (s.phase[id].StreamReady? || s.phase[id].StreamNeverStarted?)
  {
  }

  /** Cancelling the first k of a burst that has taken all permits. */
  lemma {:induction false} BurstLost(c: Config, k: nat) returns (ls: seq<Label>)
    requires k <= c.maxConcurrency
    ensures IsRun(c, ls) && Losses(ls) == k
    ensures forall id | k <= id < c.maxConcurrency :: id in State(c, ls).phase && State(c, ls).phase[id].InBarrier?
  {
    if k == 0 {
      ls := AllIn(c, c.maxConcurrency);
    } else {
      var before := BurstLost(c, k - 1);
      CancelLoses(c, before, k - 1);
      ls := before + [CancelWaiting(k - 1)];
    }
  }

  /** The first k requests, which find a permit each. */
  lemma {:induction false} AllIn(c: Config, k: nat) returns (ls: seq<Label>)
    requires k <= c.maxConcurrency
    ensures IsRun(c, ls) && Losses(ls) == 0 && State(c, ls).next == k
    ensures State(c, ls).lim == Limiter(Sem(c.maxConcurrency - k, [], c.lib), 0, 0)
    ensures forall id | 0 <= id < k :: id in State(c, ls).phase && State(c, ls).phase[id].InBarrier?
  {
    if k == 0 {
      ls := [];
    } else {
      var before := AllIn(c, k - 1);
      ls := before + [NewRequest];
      Extend(c, before, NewRequest);
      assert ls[..|before|] == before;
    }
  }

  /** In every configuration all permits can be lost. */
  lemma AllPermitsCanBeLost(c: Config)
    ensures exists ls :: IsRun(c, ls) && Losses(ls) == c.maxConcurrency
  {
    var ls := BurstLost(c, c.maxConcurrency);
  }

  /** And then nobody is served any more. */
  lemma NobodyServedThen(c: Config, ls: seq<Label>, l: Label)
    requires IsRun(c, ls) && Losses(ls) == c.maxConcurrency && Enabled(State(c, ls), l)
    ensures Next(c, State(c, ls), l).phase.Keys == State(c, ls).phase.Keys && Losses(ls + [l]) == c.maxConcurrency
  {
    var s := State(c, ls);
    EveryRunKeepsInv(c, ls);
    PermitsAreConserved(c, ls);
    StepKeepsInv(c, s, l);
    Extend(c, ls, l);
    PermitsAreConserved(c, ls + [l]);
    assert (ls + [l])[..|ls|] == ls;
    NobodyAdmitted(c, s, l);
  }

  lemma NobodyAdmitted(c: Config, s: Gw, l: Label)
    requires Inv(c, s) && Enabled(s, l) && Permits(s.lim.sem) == 0
    ensures Next(c, s, l).phase.Keys == s.phase.Keys
  {
    var cap := GatewayCapacity(c.queueSize);
    match l
    case NewRequest => StepKeeps(s.lim, Arrival(s.next), cap);
    case ResumeQueued(id) => StepKeeps(s.lim, Resumption(id), cap);
    case _ =>
  }
}
