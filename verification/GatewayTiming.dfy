/** How long a request can wait in the barrier when the event loop keeps up: everything that can run
    does run before the clock moves on. */
module GatewayTiming {
  import opened Admission
  import opened Barrier
  import opened Gateway
  import opened GatewayTheorems

  /** The clock may advance by dt without making the loop late: no flush task, fresh timer or released
      request is waiting to run, and no timer becomes overdue. */
  predicate OnTime(s: Gw, dt: real) {
    && s.bar.flushTasks == 0
    && (forall g | g in s.bar.timers :: s.bar.timers[g].Sleeping? && s.now + dt <= s.bar.timers[g].deadline)
    && (forall id | id in s.phase :: !s.phase[id].Dispatched?)
  }

  predicate PromptRun(c: Config, ls: seq<Label>) {
    IsRun(c, ls) &&
    (ls == [] ||
     (PromptRun(c, ls[..|ls| - 1]) &&
      (ls[|ls| - 1].Tick? ==> OnTime(State(c, ls[..|ls| - 1]), ls[|ls| - 1].dt))))
  }

  /** The current timer is due exactly one window after the first waiter entered. */
  ghost predicate TimerExact(c: Config, s: Gw) {
    s.bar.pending != [] ==>
      && s.bar.gen in s.bar.timers
      && s.now <= s.bar.pending[0].t0 + c.window
      && match s.bar.timers[s.bar.gen]
         case Created => s.now == s.bar.pending[0].t0
         case Sleeping(deadline) => deadline == s.bar.pending[0].t0 + c.window
  }

  ghost predicate Prompt(c: Config, s: Gw) {
    && TimerExact(c, s)
    && WaitersPrompt(c, s)
    && (forall b | b in s.bar.batches :: b.entries != [] && b.at <= b.entries[0].t0 + c.window)
  }

  lemma BatchesStayPrompt(c: Config, s: Gw, l: Label)
    requires Enabled(s, l) && Prompt(c, s)
    ensures forall b | b in Next(c, s, l).bar.batches :: b.entries != [] && b.at <= b.entries[0].t0 + c.window
  {
    BatchStep(c, s, l);
  }

  lemma TimerStaysExact(c: Config, s: Gw, l: Label)
    requires c.window >= 0.0 && Inv(c, s) && Enabled(s, l) && TimerExact(c, s)
    requires l.Tick? ==> OnTime(s, l.dt)
    ensures TimerExact(c, Next(c, s, l))
  {
    match l
    case TimerFires(g) =>
      if g != s.bar.gen && s.bar.pending != [] {
        assert s.bar.gen in s.bar.timers - {g};
      }
    case _ =>
  }

  ghost predicate WaitersPrompt(c: Config, s: Gw) {
    forall id | id in s.phase && (s.phase[id].InBarrier? || s.phase[id].Dispatched?) ::
      s.now <= s.phase[id].t0 + c.window
  }

  lemma TickKeepsPrompt(c: Config, s: Gw, dt: real)
    requires c.window >= 0.0 && Inv(c, s) && dt > 0.0 && Prompt(c, s) && OnTime(s, dt)
    ensures WaitersPrompt(c, s.(now := s.now + dt))
  {
    TimerStaysExact(c, s, Tick(dt));
    forall id | id in s.phase && s.phase[id].InBarrier? ensures s.now + dt <= s.phase[id].t0 + c.window {
      var e :| e in s.bar.pending && e.id == id;
      assert e.t0 >= s.bar.pending[0].t0;
    }
  }

  lemma WaitersStayPrompt(c: Config, s: Gw, l: Label)
    requires c.window >= 0.0 && Inv(c, s) && Enabled(s, l) && Prompt(c, s)
    requires l.Tick? ==> OnTime(s, l.dt)
    ensures WaitersPrompt(c, Next(c, s, l))
  {
    if l.Tick? {
      TickKeepsPrompt(c, s, l.dt);
    } else {
      forall id | id in Next(c, s, l).phase && Waits(Next(c, s, l).phase[id])
        ensures s.now <= Next(c, s, l).phase[id].t0 + c.window
      {
        WaiterFrom(c, s, l, id);
      }
    }
  }

  predicate Waits(p: Phase) { p.InBarrier? || p.Dispatched? }

  /** A waiter has just come, or was waiting before. */
  lemma WaiterFrom(c: Config, s: Gw, l: Label, id: nat)
    requires Enabled(s, l) && !l.Tick? && id in Next(c, s, l).phase && Waits(Next(c, s, l).phase[id])
    ensures Next(c, s, l).phase[id].t0 == s.now
            || (id in s.phase && Waits(s.phase[id]) && s.phase[id].t0 == Next(c, s, l).phase[id].t0)
  {
  }

  lemma {:induction false} EveryPromptRun(c: Config, ls: seq<Label>)
    requires c.window >= 0.0 && PromptRun(c, ls)
    ensures Prompt(c, State(c, ls))
  {
    if ls != [] {
      var before, l := ls[..|ls| - 1], ls[|ls| - 1];
      EveryPromptRun(c, before);
      EveryRunKeepsInv(c, before);
      BatchesStayPrompt(c, State(c, before), l);
      TimerStaysExact(c, State(c, before), l);
      WaitersStayPrompt(c, State(c, before), l);
    }
  }

  /** Bounded wait: on every prompt run a request that leaves the barrier has waited at most one window,
      one that is still there has not waited longer, and every batch left within a window of its
      first member's arrival. */
  lemma {:induction false} WaitIsBounded(c: Config, ls: seq<Label>)
    requires c.window >= 0.0 && PromptRun(c, ls)
    ensures var s := State(c, ls);
      && (forall id | id in s.phase && (s.phase[id].InBarrier? || s.phase[id].Dispatched?) ::
            s.now - s.phase[id].t0 <= c.window)
      && (forall b | b in s.bar.batches :: forall e | e in b.entries :: b.at - e.t0 <= c.window)
  {
    EveryPromptRun(c, ls);
    EveryRunKeepsInv(c, ls);
    var s := State(c, ls);
    forall b, e | b in s.bar.batches && e in b.entries ensures b.at - e.t0 <= c.window {
      var k :| 0 <= k < |s.bar.batches| && s.bar.batches[k] == b;
      assert GoodBatch(s.bar.batches[k], c.window);
      var i :| 0 <= i < |b.entries| && b.entries[i] == e;
      assert b.entries[0].t0 <= b.entries[i].t0;
    }
  }

  /** In a configuration whose size trigger is out of reach, a prompt run dispatches every batch exactly
      one window after its first member arrived. */
  lemma DispatchedOnTheDot(c: Config, ls: seq<Label>)
    requires c.window >= 0.0 && PromptRun(c, ls) && c.maxConcurrency < c.batchMax
    ensures forall b | b in State(c, ls).bar.batches :: b.entries != [] && b.at == b.entries[0].t0 + c.window
  {
    EveryPromptRun(c, ls);
    TimerAloneDispatches(c, ls);
  }
}
