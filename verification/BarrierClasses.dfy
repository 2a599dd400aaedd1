/** The objects behind Barrier: the asyncio lock and events, the barrier itself, and the cumulative
    batch figures the gateway keeps beside it. */
module BarrierClasses {
  import opened Barrier

  /** asyncio.Lock, seen by a task that asks for it: either it is taken at once, or the task would
      have to suspend. */
  class Lock {
    var locked: bool

    constructor ()
      ensures !locked
    {
      locked := false;
    }

    method Acquire() returns (taken: bool)
      modifies this
      ensures locked && taken == !old(locked)
    {
      taken := !locked;
      locked := true;
    }

    method Release()
      modifies this
      ensures !locked
    {
      locked := false;
    }
  }

  class Event {
    const id: nat
    var isSet: bool

    constructor (id: nat)
      ensures this.id == id && !isSet
    {
      this.id, isSet := id, false;
    }
  }

  /** The gateway's cumulative batching figures, updated by the barrier's flush hook. */
  class BatchFigures {
    var totalReqs: nat
    var totalDispatches: nat
    var singles: nat
    var efficiency: real

    constructor ()
      ensures totalReqs == totalDispatches == 0
    {
      totalReqs, totalDispatches, singles, efficiency := 0, 0, 0, 0.0;
    }

    /** The efficiency gauge is the share of dispatches saved; clamping it at zero never matters, and
        it never reaches one. */
    method OnBatchFlush(batchSize: nat)
      requires batchSize > 0 && totalDispatches <= totalReqs
      modifies this
      ensures totalReqs == old(totalReqs) + batchSize
      ensures totalDispatches == old(totalDispatches) + 1 <= totalReqs
      ensures singles == old(singles) + if batchSize == 1 then 1 else 0
      ensures 0.0 <= efficiency < 1.0
      ensures efficiency * totalReqs as real == (totalReqs - totalDispatches) as real
    {
      if batchSize == 1 {
        singles := singles + 1;
      }
      totalReqs := totalReqs + batchSize;
      totalDispatches := totalDispatches + 1;
      if totalReqs > 0 {
        Share(totalReqs - totalDispatches, totalReqs);
        var share := (totalReqs - totalDispatches) as real / totalReqs as real;
        efficiency := if share < 0.0 then 0.0 else share;
      }
    }
  }

  lemma Share(part: nat, whole: nat)
    requires part < whole
    ensures 0.0 <= part as real / whole as real < 1.0
    ensures part as real / whole as real * whole as real == part as real
  {
    var q := part as real / whole as real;
    assert q * whole as real == part as real;
  }

  class BatchBarrier {
    const window: real
    const maxBatchSize: int
    const lock: Lock
    const figures: BatchFigures
    var pending: seq<(Event, real)>
    var timerGen: nat
    var queueDepth: nat
    /** Tasks handed to the event loop that have not finished. */
    var timers: map<nat, Timer>
    var flushTasks: nat
    ghost var arrivals: seq<Entry>
    ghost var batches: seq<Batch>

    ghost function Entries(): (es: seq<Entry>)
      reads this
      ensures |es| == |pending|
      ensures forall i | 0 <= i < |es| :: es[i] == Entry(pending[i].0.id, pending[i].1)
    {
      seq(|pending|, i requires 0 <= i < |pending| reads this => Entry(pending[i].0.id, pending[i].1))
    }

    ghost function Model(): Bar
      reads this, figures
    {
      Bar(Entries(), timerGen, timers, flushTasks, figures.totalReqs, figures.totalDispatches, arrivals, batches)
    }

    /** What holds whenever the event loop has control: the lock is free, the gauge shows the list's
        length, the events waited for are distinct and none of them is set. */
    ghost predicate Valid()
      reads this, lock, figures, set p | p in pending :: p.0
    {
      && !lock.locked
      && queueDepth == |pending|
      && figures.totalDispatches <= figures.totalReqs
      && (forall i | 0 <= i < |pending| :: !pending[i].0.isSet)
      && (forall i, j | 0 <= i < j < |pending| :: pending[i].0 != pending[j].0)
    }

    constructor (window: real, maxBatchSize: int)
      ensures Valid() && Model() == Empty()
      ensures this.window == window && this.maxBatchSize == maxBatchSize
      ensures fresh(lock) && fresh(figures)
    {
      this.window, this.maxBatchSize := window, maxBatchSize;
      lock := new Lock();
      figures := new BatchFigures();
      pending, timerGen, queueDepth, timers, flushTasks := [], 0, 0, map[], 0;
      arrivals, batches := [], [];
    }

    /** wait() up to the point where it suspends on its event.  It never suspends on the lock. */
    method Wait(id: nat, now: real) returns (event: Event, suspendedOnLock: bool)
      requires Valid()
      modifies this, lock
      ensures Valid() && !suspendedOnLock
      ensures Model() == Enter(old(Model()), id, now, maxBatchSize)
      ensures fresh(event) && event.id == id && pending == old(pending) + [(event, now)]
    {
      event := new Event(id);
      var taken := lock.Acquire();
      suspendedOnLock := !taken;
      pending := pending + [(event, now)];
      queueDepth := |pending|;
      var batchSize := |pending|;
      if batchSize == 1 {
        timerGen := timerGen + 1;
        timers := timers[timerGen := Created];
      }
      lock.Release();
      if batchSize >= maxBatchSize {
        flushTasks := flushTasks + 1;
      }
      arrivals := arrivals + [Entry(id, now)];
      assert Entries() == old(Entries()) + [Entry(id, now)];
    }

    /** A timer task runs for the first time. */
    method TimerSleeps(gen: nat, now: real)
      requires Valid() && gen in timers
      modifies this`timers
      ensures Valid() && Model() == StartTimer(old(Model()), gen, now, window)
    {
      timers := timers[gen := Sleeping(now + window)];
    }

    /** The rest of a timer task.  The generation test and the flush take the lock separately, but
        nothing can run between them. */
    method TimerWakes(gen: nat, now: real) returns (suspendedOnLock: bool)
      requires Valid()
      modifies this, lock, figures, set p | p in pending :: p.0
      ensures Valid() && !suspendedOnLock
      ensures Model() == FireTimer(old(Model()), gen, now)
      ensures gen == old(timerGen) ==> forall p | p in old(pending) :: p.0.isSet
      ensures gen != old(timerGen) ==> pending == old(pending) && forall p | p in pending :: !p.0.isSet
    {
      timers := timers - {gen};
      assert Entries() == old(Entries());
      var taken := lock.Acquire();
      suspendedOnLock := !taken;
      var stale := gen != timerGen;
      lock.Release();
      if stale {
        return;
      }
      assert Model() == old(Model()).(timers := timers);
      var again := DoFlush(now, ByTimer(gen));
      suspendedOnLock := suspendedOnLock || again;
    }

    /** A flush task started by the size test. */
    method FlushTask(now: real) returns (suspendedOnLock: bool)
      requires Valid() && flushTasks > 0
      modifies this, lock, figures, set p | p in pending :: p.0
      ensures Valid() && !suspendedOnLock
      ensures Model() == RunFlush(old(Model()), now)
      ensures forall p | p in old(pending) :: p.0.isSet
    {
      flushTasks := flushTasks - 1;
      assert Entries() == old(Entries());
      suspendedOnLock := DoFlush(now, BySize);
    }

    method DoFlush(now: real, ghost cause: Cause) returns (suspendedOnLock: bool)
      requires Valid()
      modifies this, lock, figures, set p | p in pending :: p.0
      ensures Valid() && !suspendedOnLock
      ensures Model() == Flush(old(Model()), now, cause)
      ensures forall p | p in old(pending) :: p.0.isSet
    {
      var taken := lock.Acquire();
      suspendedOnLock := !taken;
      if |pending| == 0 {
        lock.Release();
        return;
      }
      var batch := pending;
      ghost var released := Entries();
      pending := [];
      queueDepth := 0;
      lock.Release();
      figures.OnBatchFlush(|batch|);
      for i := 0 to |batch|
        invariant forall j | 0 <= j < i :: batch[j].0.isSet
        invariant pending == [] && !lock.locked && queueDepth == 0
        invariant timerGen == old(timerGen) && timers == old(timers) && flushTasks == old(flushTasks)
        invariant arrivals == old(arrivals) && batches == old(batches)
        invariant figures.totalReqs == old(figures.totalReqs) + |batch|
        invariant figures.totalDispatches == old(figures.totalDispatches) + 1 <= figures.totalReqs
      {
        batch[i].0.isSet := true;
      }
      batches := batches + [Batch(released, now, cause)];
      assert Entries() == [];
    }
  }
}
