/** The batch barrier: requests collect in a pending list and are released together, either by the
    timer started for the first of them or by a flush task started when the list is long enough.

    The state is a value and there is one function per uninterrupted stretch.  arrivals and batches
    are history: who entered, in order, and what was released when and why. */
module Barrier {

  datatype Entry = Entry(id: nat, t0: real)

  /** A timer task has been created but has not run yet, or it sleeps until its deadline. */
  datatype Timer = Created | Sleeping(deadline: real)

  datatype Cause = ByTimer(gen: nat) | BySize

  datatype Batch = Batch(entries: seq<Entry>, at: real, cause: Cause)

  datatype Bar = Bar(pending: seq<Entry>, gen: nat, timers: map<nat, Timer>, flushTasks: nat,
                     totalReqs: nat, totalDispatches: nat,
                     arrivals: seq<Entry>, batches: seq<Batch>)

  function Empty(): Bar { Bar([], 0, map[], 0, 0, 0, [], []) }

  /** A request enters: the first of a batch starts a timer of a new generation, and one that makes
      the list long enough starts a flush task. */
  function Enter(b: Bar, id: nat, now: real, maxBatch: int): Bar {
    var e := Entry(id, now);
    var n := |b.pending| + 1;
    b.(pending := b.pending + [e],
       arrivals := b.arrivals + [e],
       gen := if n == 1 then b.gen + 1 else b.gen,
       timers := if n == 1 then b.timers[b.gen + 1 := Created] else b.timers,
       flushTasks := if n >= maxBatch then b.flushTasks + 1 else b.flushTasks)
  }

  function Flush(b: Bar, now: real, cause: Cause): Bar {
    if b.pending == [] then b
    else b.(pending := [],
            batches := b.batches + [Batch(b.pending, now, cause)],
            totalReqs := b.totalReqs + |b.pending|,
            totalDispatches := b.totalDispatches + 1)
  }

  /** A created timer task runs for the first time and goes to sleep. */
  function StartTimer(b: Bar, g: nat, now: real, window: real): Bar {
    b.(timers := b.timers[g := Sleeping(now + window)])
  }

  /** A timer wakes up: it flushes only if no later generation has been started. */
  function FireTimer(b: Bar, g: nat, now: real): Bar {
    var b' := b.(timers := b.timers - {g});
    if g == b.gen then Flush(b', now, ByTimer(g)) else b'
  }

  function RunFlush(b: Bar, now: real): Bar
    requires b.flushTasks > 0
  {
    Flush(b.(flushTasks := b.flushTasks - 1), now, BySize)
  }

  // ----- invariants -----

  function Released(batches: seq<Batch>): seq<Entry> {
    if batches == [] then [] else Released(batches[..|batches| - 1]) + batches[|batches| - 1].entries
  }

  ghost predicate InOrder(es: seq<Entry>, now: real) {
    && (forall i | 0 <= i < |es| :: es[i].t0 <= now)
    && (forall i, j | 0 <= i < j < |es| :: es[i].t0 <= es[j].t0)
  }

  /** A batch is not empty and no member entered after it left; if a timer released it, its first
      member had waited for at least the window. */
  ghost predicate GoodBatch(batch: Batch, window: real) {
    && batch.entries != []
    && InOrder(batch.entries, batch.at)
    && (batch.cause.ByTimer? ==> batch.at >= batch.entries[0].t0 + window)
  }

  /** No lost wake-up: while somebody waits, the timer of the current generation is alive, and it will
      not fire before the first waiter's window has passed. */
  ghost predicate WakeupPending(b: Bar, window: real) {
    b.pending != [] ==>
      && b.gen in b.timers
      && (b.timers[b.gen].Sleeping? ==> b.timers[b.gen].deadline >= b.pending[0].t0 + window)
  }

  /** Nobody is lost and nobody is released twice: the batches, one after the other, followed by the
      pending list, are exactly the arrivals. */
  ghost predicate Conserved(b: Bar) {
    && Released(b.batches) + b.pending == b.arrivals
    && b.totalReqs == |Released(b.batches)|
    && b.totalDispatches == |b.batches|
    && b.totalDispatches <= b.totalReqs
  }

  ghost predicate BarInv(b: Bar, window: real, now: real) {
    && WakeupPending(b, window)
    && (forall g | g in b.timers :: g <= b.gen)
    && InOrder(b.pending, now)
    && Conserved(b)
    && (forall i | 0 <= i < |b.batches| :: GoodBatch(b.batches[i], window))
  }

  lemma FlushKeeps(b: Bar, window: real, now: real, cause: Cause)
    requires (forall g | g in b.timers :: g <= b.gen) && InOrder(b.pending, now) && Conserved(b)
    requires forall i | 0 <= i < |b.batches| :: GoodBatch(b.batches[i], window)
    requires cause.ByTimer? && b.pending != [] ==> now >= b.pending[0].t0 + window
    ensures BarInv(Flush(b, now, cause), window, now) && Flush(b, now, cause).pending == []
  {
    if b.pending != [] {
      var batch := Batch(b.pending, now, cause);
      assert (b.batches + [batch])[..|b.batches|] == b.batches;
      assert Released(b.batches + [batch]) == Released(b.batches) + b.pending;
    }
  }

  lemma EnterKeeps(b: Bar, window: real, now: real, id: nat, maxBatch: int)
    requires BarInv(b, window, now)
    ensures BarInv(Enter(b, id, now, maxBatch), window, now)
  {
    assert Released(b.batches) + (b.pending + [Entry(id, now)]) == b.arrivals + [Entry(id, now)];
  }

  lemma StartTimerKeeps(b: Bar, window: real, now: real, g: nat)
    requires BarInv(b, window, now) && g in b.timers && b.timers[g].Created?
    ensures BarInv(StartTimer(b, g, now, window), window, now)
  {
    if b.pending != [] {
      assert b.pending[0].t0 <= now;
    }
  }

  lemma FireTimerKeeps(b: Bar, window: real, now: real, g: nat)
    requires BarInv(b, window, now)
    requires g in b.timers && b.timers[g].Sleeping? && b.timers[g].deadline <= now
    ensures BarInv(FireTimer(b, g, now), window, now)
    ensures FireTimer(b, g, now).pending == if g == b.gen then [] else b.pending
    ensures g != b.gen ==> FireTimer(b, g, now).batches == b.batches
  {
    if g == b.gen {
      FlushKeeps(b.(timers := b.timers - {g}), window, now, ByTimer(g));
    }
  }

  lemma RunFlushKeeps(b: Bar, window: real, now: real)
    requires BarInv(b, window, now) && b.flushTasks > 0
    ensures BarInv(RunFlush(b, now), window, now) && RunFlush(b, now).pending == []
  {
    FlushKeeps(b.(flushTasks := b.flushTasks - 1), window, now, BySize);
  }
}
