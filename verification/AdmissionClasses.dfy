/** The objects behind Admission: the semaphore and the two limiters, as the code writes them.  Each
    method is one stretch between suspension points and is proved to compute the function of the
    same stretch on the abstract state. */
module AdmissionClasses {
  import opened Admission

  class Semaphore {
    const lib: Library
    var value: nat
    var waiters: seq<Waiter>

    function Model(): Sem
      reads this
    {
      Sem(value, waiters, lib)
    }

    constructor (permits: nat, lib: Library)
      ensures Model() == Sem(permits, [], lib)
    {
      this.lib := lib;
      value, waiters := permits, [];
    }

    method IsLocked() returns (locked: bool)
      ensures locked == Locked(Model())
    {
      if value == 0 {
        return true;
      }
      for i := 0 to |waiters|
        invariant forall j | 0 <= j < i :: waiters[j].fut == Cancelled
      {
        if waiters[i].fut != Cancelled {
          return true;
        }
      }
      return false;
    }

    /** Hands a permit to the first waiter that is not done; false when there is none. */
    method WakeUpNext() returns (woken: bool)
      requires value > 0
      modifies this
      ensures Model() == WakeNext(old(Model()))
      ensures woken == (FirstWaiting(old(waiters)) < |old(waiters)|)
    {
      for i := 0 to |waiters|
        invariant value == old(value) && waiters == old(waiters)
        invariant forall j | 0 <= j < i :: waiters[j].fut != Waiting
      {
        if waiters[i].fut == Waiting {
          value := value - 1;
          waiters := waiters[i := waiters[i].(fut := Granted)];
          return true;
        }
      }
      return false;
    }

    method Release()
      modifies this
      ensures Model() == WakeNext(old(Model()).(value := old(value) + 1))
    {
      value := value + 1;
      var _ := WakeUpNext();
    }

    /** The part of acquire() before it suspends: take a permit, or join the queue. */
    method StartAcquire(id: nat) returns (got: bool)
      modifies this
      ensures got == !Locked(old(Model()))
      ensures got ==> value == old(value) - 1 && waiters == old(waiters)
      ensures !got ==> value == old(value) && waiters == old(waiters) + [Waiter(id, Waiting, NoInterrupt)]
    {
      var locked := IsLocked();
      if !locked {
        value := value - 1;
        return true;
      }
      waiters := waiters + [Waiter(id, Waiting, NoInterrupt)];
      return false;
    }

    /** The part of acquire() after its future is done: leave the queue, undo an unused grant, and pass
        free permits on. */
    method FinishAcquire(id: nat) returns (why: Interrupt)
      requires Find(waiters, id) < |waiters| && waiters[Find(waiters, id)].fut != Waiting
      modifies this
      ensures Model() == Leave(old(Model()), Find(old(waiters), id))
      ensures why == old(waiters)[Find(old(waiters), id)].intr
    {
      var i := Find(waiters, id);
      var w := waiters[i];
      why := w.intr;
      waiters := waiters[..i] + waiters[i + 1..];
      if why != NoInterrupt && w.fut == Granted {
        value := value + 1;
      }
      ghost var start := Model();
      if lib == WakesAll {
        while value > 0
          invariant WakeAll(Model()) == WakeAll(start)
          decreases value
        {
          var woken := WakeUpNext();
          if !woken {
            break;
          }
        }
      } else if w.fut == Granted && value > 0 {
        var _ := WakeUpNext();
      }
    }

    /** The event loop cancels a future, or marks a task that is already runnable. */
    method Interrupt(id: nat, why: Interrupt)
      requires why != NoInterrupt
      modifies this
      ensures forall count, leaked ::
        Limiter(Model(), count, leaked) == Disturb(Limiter(old(Model()), count, leaked), id, why)
    {
      var i := Find(waiters, id);
      if i < |waiters| {
        waiters := waiters[i := Interrupted(waiters[i], why)];
      }
    }
  }

  /** The gateway's module state: the semaphore, the plain integer counting queued requests, and the
      overload counter. */
  class GatewayLimiter {
    const sem: Semaphore
    var queueCount: int
    var rejectedOverload: nat
    ghost var leaked: nat

    ghost function Model(): Limiter
      reads this, sem
    {
      Limiter(sem.Model(), queueCount, leaked)
    }

    constructor (maxConcurrency: nat, lib: Library)
      ensures Model() == Init(maxConcurrency, lib) && rejectedOverload == 0 && fresh(sem)
    {
      sem := new Semaphore(maxConcurrency, lib);
      queueCount, rejectedOverload, leaked := 0, 0, 0;
    }

    method AcquireSlot(id: nat, queueSize: int) returns (answer: Answer)
      modifies this, sem
      ensures (Model(), answer) == Arrive(old(Model()), id, GatewayCapacity(queueSize))
      ensures rejectedOverload == old(rejectedOverload) + if answer == Rejected then 1 else 0
    {
      var locked := sem.IsLocked();
      if locked {
        queueCount := queueCount + 1;
        if queueCount > queueSize {
          queueCount := queueCount - 1;
          rejectedOverload := rejectedOverload + 1;
          return Rejected;
        }
        var _ := sem.StartAcquire(id);
        return Queued;
      }
      var _ := sem.StartAcquire(id);
      return Acquired;
    }

    /** The rest of acquire_slot.  Only the expiry of the timeout is caught, so a cancelled request
        skips the decrement. */
    method FinishSlot(id: nat) returns (answer: Answer)
      requires Find(sem.waiters, id) < |sem.waiters| && sem.waiters[Find(sem.waiters, id)].fut != Waiting
      modifies this, sem
      ensures (Model(), answer) == Resume(old(Model()), id)
      ensures rejectedOverload == old(rejectedOverload) + if answer == GaveUp then 1 else 0
    {
      var why := sem.FinishAcquire(id);
      match why
      case TaskCancelled =>
        leaked := leaked + 1;
        return Raised;
      case TimedOut =>
        queueCount := queueCount - 1;
        rejectedOverload := rejectedOverload + 1;
        return GaveUp;
      case NoInterrupt =>
        queueCount := queueCount - 1;
        return Acquired;
    }

    method ReleaseSlot()
      modifies this, sem
      ensures Model() == Release(old(Model())) && rejectedOverload == old(rejectedOverload)
    {
      sem.Release();
    }
  }

  /** Django's module state: the semaphore and the depth gauge, which it reads back to decide. */
  class DjangoLimiter {
    const sem: Semaphore
    var queueDepth: int
    var rejectedOverload: nat
    ghost var leaked: nat

    ghost function Model(): Limiter
      reads this, sem
    {
      Limiter(sem.Model(), queueDepth, leaked)
    }

    constructor (maxConcurrency: nat, lib: Library)
      ensures Model() == Init(maxConcurrency, lib) && rejectedOverload == 0 && fresh(sem)
    {
      sem := new Semaphore(maxConcurrency, lib);
      queueDepth, rejectedOverload, leaked := 0, 0, 0;
    }

    method Acquire(id: nat, queueSize: int) returns (answer: Answer)
      modifies this, sem
      ensures (Model(), answer) == Arrive(old(Model()), id, DjangoCapacity(queueSize))
      ensures rejectedOverload == old(rejectedOverload) + if answer == Rejected then 1 else 0
    {
      var locked := sem.IsLocked();
      if !locked {
        var _ := sem.StartAcquire(id);
        return Acquired;
      }
      var depth := queueDepth + 1;
      queueDepth := queueDepth + 1;
      if depth >= queueSize {
        queueDepth := queueDepth - 1;
        rejectedOverload := rejectedOverload + 1;
        return Rejected;
      }
      var _ := sem.StartAcquire(id);
      return Queued;
    }

    method FinishAcquire(id: nat) returns (answer: Answer)
      requires Find(sem.waiters, id) < |sem.waiters| && sem.waiters[Find(sem.waiters, id)].fut != Waiting
      modifies this, sem
      ensures (Model(), answer) == Resume(old(Model()), id)
      ensures rejectedOverload == old(rejectedOverload) + if answer == GaveUp then 1 else 0
    {
      var why := sem.FinishAcquire(id);
      if why == TaskCancelled {
        leaked := leaked + 1;
        return Raised;
      }
      queueDepth := queueDepth - 1;
      if why == TimedOut {
        rejectedOverload := rejectedOverload + 1;
        return GaveUp;
      }
      return Acquired;
    }

    method ReleaseSlot()
      modifies this, sem
      ensures Model() == Release(old(Model())) && rejectedOverload == old(rejectedOverload)
    {
      sem.Release();
    }
  }
}
