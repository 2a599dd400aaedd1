/** The permit pool shared by both services: asyncio.Semaphore with the semantics of Python 3.12,
    and the bounded-queue limiter built on it.

    Everything here is a value: a state, and one function per stretch of code that runs without
    suspending on the event loop.  AdmissionClasses holds the objects whose methods are proved to
    compute these functions, and Gateway composes them with the batch barrier. */
module Admission {

  /** State of the future a queued task is suspended on. */
  datatype Fut = Waiting | Granted | Cancelled

  /** Why a queued task will see CancelledError when it next runs.  A cancellation of the whole
      task takes precedence over the expiry of its own timeout. */
  datatype Interrupt = NoInterrupt | TimedOut | TaskCancelled

  datatype Waiter = Waiter(id: nat, fut: Fut, intr: Interrupt)

  /** The text of asyncio.Semaphore changed in the life of Python 3.12.  At first a task that goes on with
      its permit wakes at most one more waiter, and so does one that gives an unused permit back;
      later every task that leaves the queue wakes as many as there are permits.  Everything here
      holds of both. */
  datatype Library = WakesOne | WakesAll

  /** asyncio.Semaphore: the free permits and the FIFO of waiters that have not yet resumed. */
  datatype Sem = Sem(value: nat, waiters: seq<Waiter>, lib: Library)

  /** The limiter: its semaphore, its counter of queued requests, and (history) how many queued
      requests were cancelled, which the code never subtracts from the counter. */
  datatype Limiter = Limiter(sem: Sem, count: int, leaked: nat)

  datatype Answer = Acquired | Queued | Rejected | GaveUp | Raised | Ignored

  // ----- the semaphore -----

  /** No permit can be had at once: none is free, or a live waiter is ahead. */
  predicate Locked(s: Sem) {
    s.value == 0 || exists w | w in s.waiters :: w.fut != Cancelled
  }

  /** Position of the oldest waiter whose future is not done, or the length. */
  function FirstWaiting(ws: seq<Waiter>): (i: nat)
    ensures i <= |ws|
    ensures i < |ws| ==> ws[i].fut == Waiting
    ensures forall j | 0 <= j < i :: ws[j].fut != Waiting
  {
    if ws == [] || ws[0].fut == Waiting then 0 else 1 + FirstWaiting(ws[1..])
  }

  /** Position of the waiter with the given id, or the length. */
  function Find(ws: seq<Waiter>, id: nat): (i: nat)
    ensures i <= |ws|
    ensures i < |ws| ==> ws[i].id == id
    ensures forall j | 0 <= j < i :: ws[j].id != id
  {
    if ws == [] || ws[0].id == id then 0 else 1 + Find(ws[1..], id)
  }

  function WakeNext(s: Sem): Sem
    requires s.value > 0
  {
    var i := FirstWaiting(s.waiters);
    if i == |s.waiters| then s
    else s.(value := s.value - 1, waiters := s.waiters[i := s.waiters[i].(fut := Granted)])
  }

  function WakeAll(s: Sem): Sem
    decreases s.value
  {
    if s.value == 0 || FirstWaiting(s.waiters) == |s.waiters| then s else WakeAll(WakeNext(s))
  }

  function Interrupted(w: Waiter, why: Interrupt): Waiter {
    w.(fut := if w.fut == Waiting then Cancelled else w.fut,
       intr := if w.intr == TaskCancelled then TaskCancelled else why)
  }

  function Without(ws: seq<Waiter>, i: nat): seq<Waiter>
    requires i < |ws|
  {
    ws[..i] + ws[i + 1..]
  }

  // ----- the limiter: one function per uninterrupted stretch -----

  /** A request calls acquire; at most cap requests may be counted as queued. */
  function Arrive(l: Limiter, id: nat, cap: int): (Limiter, Answer) {
    if Locked(l.sem) then
      if l.count >= cap then (l, Rejected)
      else (l.(sem := l.sem.(waiters := l.sem.waiters + [Waiter(id, Waiting, NoInterrupt)]),
               count := l.count + 1), Queued)
    else (l.(sem := l.sem.(value := l.sem.value - 1)), Acquired)
  }

  function Release(l: Limiter): Limiter {
    l.(sem := WakeNext(l.sem.(value := l.sem.value + 1)))
  }

  /** The timeout of a queued request expires, or its task is cancelled. */
  function Disturb(l: Limiter, id: nat, why: Interrupt): Limiter {
    var i := Find(l.sem.waiters, id);
    if i == |l.sem.waiters| then l
    else l.(sem := l.sem.(waiters := l.sem.waiters[i := Interrupted(l.sem.waiters[i], why)]))
  }

  /** Waking whoever can proceed after a task has left the queue; done says that its future was not
      cancelled, so that it held a permit. */
  function WakeOthers(s: Sem, done: bool): Sem {
    if s.lib == WakesAll then WakeAll(s)
    else if done && s.value > 0 then WakeNext(s)
    else s
  }

  /** The semaphore's part of running a queued task again: leave the queue, give back a permit that
      was granted but will not be used, and wake whoever can now proceed. */
  function Leave(s: Sem, i: nat): Sem
    requires i < |s.waiters|
  {
    var w := s.waiters[i];
    var unused := w.fut == Granted && w.intr != NoInterrupt;
    WakeOthers(s.(value := if unused then s.value + 1 else s.value, waiters := Without(s.waiters, i)), w.fut == Granted)
  }

  /** A queued task whose future is done runs again. */
  function Resume(l: Limiter, id: nat): (Limiter, Answer) {
    var i := Find(l.sem.waiters, id);
    if i == |l.sem.waiters| || l.sem.waiters[i].fut == Waiting then (l, Ignored)
    else
      var s := Leave(l.sem, i);
      match l.sem.waiters[i].intr
      case NoInterrupt => (l.(sem := s, count := l.count - 1), Acquired)
      case TimedOut => (l.(sem := s, count := l.count - 1), GaveUp)
      case TaskCancelled => (l.(sem := s, leaked := l.leaked + 1), Raised)
  }

  // ----- invariants -----

  ghost predicate HasGranted(ws: seq<Waiter>) {
    exists i :: 0 <= i < |ws| && ws[i].fut == Granted
  }

  /** Permits are granted in arrival order: nobody behind a still-waiting task holds a grant. */
  ghost predicate Fifo(ws: seq<Waiter>) {
    forall i, j | 0 <= i < j < |ws| :: ws[i].fut == Waiting ==> ws[j].fut != Granted
  }

  /** A free permit is never forgotten: while somebody waits for one, a task that has been granted
      a permit is about to run, and it will pass the wake-up on. */
  ghost predicate NoForgottenPermit(s: Sem) {
    s.value > 0 && FirstWaiting(s.waiters) < |s.waiters| ==> HasGranted(s.waiters)
  }

  ghost predicate Marked(ws: seq<Waiter>) {
    forall i | 0 <= i < |ws| ::
      && (ws[i].fut == Waiting ==> ws[i].intr == NoInterrupt)
      && (ws[i].fut == Cancelled ==> ws[i].intr != NoInterrupt)
  }

  ghost predicate SemInv(s: Sem) {
    Fifo(s.waiters) && Marked(s.waiters) && NoForgottenPermit(s)
  }

  function Max(a: int, b: int): int { if a < b then b else a }

  ghost predicate LimiterInv(l: Limiter, cap: int) {
    && SemInv(l.sem)
    && l.count == |l.sem.waiters| + l.leaked
    && l.count <= Max(0, cap)
  }

  function GrantedCount(ws: seq<Waiter>): nat {
    if ws == [] then 0 else (if ws[0].fut == Granted then 1 else 0) + GrantedCount(ws[1..])
  }

  /** Permits that are free or granted to a task that has not run yet. */
  function Permits(s: Sem): nat { s.value + GrantedCount(s.waiters) }

  lemma {:induction false} GrantedSplit(a: seq<Waiter>, b: seq<Waiter>)
    ensures GrantedCount(a + b) == GrantedCount(a) + GrantedCount(b)
  {
    if a == [] {
      assert a + b == b;
    } else {
      assert (a + b)[1..] == a[1..] + b;
      GrantedSplit(a[1..], b);
    }
  }

  lemma {:induction false} GrantedAt(ws: seq<Waiter>, i: nat)
    requires i < |ws|
    ensures GrantedCount(ws) == GrantedCount(Without(ws, i)) + if ws[i].fut == Granted then 1 else 0
  {
    var rest := Without(ws, i);
    if i == 0 {
      assert rest == ws[1..];
    } else {
      assert rest[0] == ws[0] && rest[1..] == Without(ws[1..], i - 1);
      GrantedAt(ws[1..], i - 1);
    }
  }

  lemma GrantedUpdate(ws: seq<Waiter>, i: nat, w: Waiter)
    requires i < |ws|
    ensures GrantedCount(ws[i := w]) ==
            GrantedCount(ws) - (if ws[i].fut == Granted then 1 else 0) + (if w.fut == Granted then 1 else 0)
  {
    GrantedAt(ws, i);
    GrantedAt(ws[i := w], i);
    assert Without(ws[i := w], i) == Without(ws, i);
  }

  /** Waking only turns waiting futures into granted ones. */
  ghost predicate SameTasks(a: seq<Waiter>, b: seq<Waiter>) {
    |a| == |b| && forall i | 0 <= i < |a| ::
      && a[i].id == b[i].id && a[i].intr == b[i].intr
      && (a[i].fut != Waiting ==> b[i].fut == a[i].fut)
  }

  lemma WakeNextKeeps(s: Sem)
    requires s.value > 0 && Fifo(s.waiters) && Marked(s.waiters)
    ensures SemInv(WakeNext(s)) && Permits(WakeNext(s)) == Permits(s)
    ensures SameTasks(s.waiters, WakeNext(s).waiters)
  {
    var i := FirstWaiting(s.waiters);
    if i < |s.waiters| {
      GrantedUpdate(s.waiters, i, s.waiters[i].(fut := Granted));
      assert WakeNext(s).waiters[i].fut == Granted;
    }
  }

  lemma {:induction false} WakeAllKeeps(s: Sem)
    requires Fifo(s.waiters) && Marked(s.waiters)
    ensures SemInv(WakeAll(s)) && Permits(WakeAll(s)) == Permits(s)
    ensures SameTasks(s.waiters, WakeAll(s).waiters)
    ensures WakeAll(s).value == 0 || FirstWaiting(WakeAll(s).waiters) == |s.waiters|
    ensures WakeAll(s).lib == s.lib
    decreases s.value
  {
    if s.value > 0 && FirstWaiting(s.waiters) < |s.waiters| {
      WakeNextKeeps(s);
      WakeAllKeeps(WakeNext(s));
    }
  }

  lemma WithoutKeeps(ws: seq<Waiter>, i: nat)
    requires i < |ws| && Fifo(ws) && Marked(ws)
    ensures Fifo(Without(ws, i)) && Marked(Without(ws, i))
  {
    var rest := Without(ws, i);
    assert forall j | 0 <= j < |rest| :: rest[j] == ws[if j < i then j else j + 1];
  }

  lemma WakeOthersKeeps(s: Sem, done: bool)
    requires Fifo(s.waiters) && Marked(s.waiters)
    requires !done ==> NoForgottenPermit(s)
    ensures SemInv(WakeOthers(s, done)) && Permits(WakeOthers(s, done)) == Permits(s)
    ensures SameTasks(s.waiters, WakeOthers(s, done).waiters) && WakeOthers(s, done).lib == s.lib
  {
    WakeAllKeeps(s);
    if s.value > 0 {
      WakeNextKeeps(s);
    }
  }

  /** A task whose future was cancelled leaves no forgotten permit behind. */
  lemma CancelledLeaves(s: Sem, i: nat)
    requires i < |s.waiters| && SemInv(s) && s.waiters[i].fut == Cancelled
    ensures NoForgottenPermit(s.(waiters := Without(s.waiters, i)))
  {
    var rest := Without(s.waiters, i);
    assert forall j | 0 <= j < |rest| :: rest[j] == s.waiters[if j < i then j else j + 1];
    var f := FirstWaiting(rest);
    if s.value > 0 && f < |rest| {
      assert s.waiters[if f < i then f else f + 1].fut == Waiting;
      var g :| 0 <= g < |s.waiters| && s.waiters[g].fut == Granted;
      assert rest[if g < i then g else g - 1] == s.waiters[g];
    }
  }

  /** Running a queued task again keeps the semaphore's invariants; it takes a permit out of the pool
      exactly when it goes on with the one it was granted. */
  lemma LeaveKeeps(s: Sem, i: nat)
    requires i < |s.waiters| && SemInv(s) && s.waiters[i].fut != Waiting
    ensures SemInv(Leave(s, i)) && Leave(s, i).lib == s.lib
    ensures SameTasks(Without(s.waiters, i), Leave(s, i).waiters)
    ensures Permits(Leave(s, i)) == Permits(s) - if s.waiters[i].intr == NoInterrupt then 1 else 0
  {
    GrantedAt(s.waiters, i);
    WithoutKeeps(s.waiters, i);
    var w := s.waiters[i];
    if w.fut == Cancelled {
      CancelledLeaves(s, i);
    }
    var unused := w.fut == Granted && w.intr != NoInterrupt;
    WakeOthersKeeps(s.(value := if unused then s.value + 1 else s.value, waiters := Without(s.waiters, i)), w.fut == Granted);
  }

  /** A request that must queue although a permit is free stands behind somebody who holds a grant. */
  lemma ArrivingBehindGrant(s: Sem)
    requires SemInv(s) && Locked(s) && s.value > 0
    ensures HasGranted(s.waiters)
  {
    var w :| w in s.waiters && w.fut != Cancelled;
    var i :| 0 <= i < |s.waiters| && s.waiters[i] == w;
    if w.fut == Waiting {
      assert FirstWaiting(s.waiters) <= i;
    }
  }

  lemma EnqueueKeeps(s: Sem, id: nat)
    requires SemInv(s) && Locked(s)
    ensures SemInv(s.(waiters := s.waiters + [Waiter(id, Waiting, NoInterrupt)]))
    ensures GrantedCount(s.waiters + [Waiter(id, Waiting, NoInterrupt)]) == GrantedCount(s.waiters)
  {
    var w := Waiter(id, Waiting, NoInterrupt);
    GrantedSplit(s.waiters, [w]);
    if s.value > 0 {
      ArrivingBehindGrant(s);
      var i :| 0 <= i < |s.waiters| && s.waiters[i].fut == Granted;
      assert (s.waiters + [w])[i].fut == Granted;
    }
  }

  lemma DisturbKeeps(l: Limiter, id: nat, why: Interrupt)
    requires SemInv(l.sem) && why != NoInterrupt
    ensures SemInv(Disturb(l, id, why).sem) && Permits(Disturb(l, id, why).sem) == Permits(l.sem)
    ensures |Disturb(l, id, why).sem.waiters| == |l.sem.waiters|
  {
    var ws := l.sem.waiters;
    var i := Find(ws, id);
    if i < |ws| {
      var ws' := ws[i := Interrupted(ws[i], why)];
      GrantedUpdate(ws, i, Interrupted(ws[i], why));
      assert Fifo(ws') && Marked(ws');
      if l.sem.value > 0 && FirstWaiting(ws') < |ws'| {
        assert FirstWaiting(ws) <= FirstWaiting(ws');
        var g :| 0 <= g < |ws| && ws[g].fut == Granted;
        assert ws'[g].fut == Granted;
      }
    }
  }

  // ----- who is in the queue -----

  /** Queued requests stand in arrival order, and neither they nor requests still to come have been
      taken on. */
  ghost predicate QueueFresh(ws: seq<Waiter>, taken: set<nat>, next: nat) {
    && (forall i, j | 0 <= i < j < |ws| :: ws[i].id < ws[j].id)
    && (forall i | 0 <= i < |ws| :: ws[i].id < next && ws[i].id !in taken)
    && (forall id | id in taken :: id < next)
  }

  lemma FreshAfterArrival(l: Limiter, taken: set<nat>, next: nat, cap: int)
    requires QueueFresh(l.sem.waiters, taken, next)
    ensures QueueFresh(Arrive(l, next, cap).0.sem.waiters, taken, next + 1)
    ensures Arrive(l, next, cap).1 != Queued ==> forall w | w in Arrive(l, next, cap).0.sem.waiters :: w.id != next
  {
  }

  lemma FreshAfterDisturbance(l: Limiter, taken: set<nat>, next: nat, id: nat, why: Interrupt)
    requires QueueFresh(l.sem.waiters, taken, next)
    ensures QueueFresh(Disturb(l, id, why).sem.waiters, taken, next)
  {
  }

  /** Waking changes nothing about who is queued. */
  lemma FreshAfterWaking(ws: seq<Waiter>, ws': seq<Waiter>, taken: set<nat>, next: nat)
    requires QueueFresh(ws, taken, next) && SameTasks(ws, ws')
    ensures QueueFresh(ws', taken, next)
  {
    assert forall i | 0 <= i < |ws'| :: ws'[i].id == ws[i].id;
  }

  lemma FreshAfterRelease(l: Limiter, taken: set<nat>, next: nat)
    requires QueueFresh(l.sem.waiters, taken, next) && SemInv(l.sem)
    ensures QueueFresh(Release(l).sem.waiters, taken, next)
  {
    WakeNextKeeps(l.sem.(value := l.sem.value + 1));
    FreshAfterWaking(l.sem.waiters, Release(l).sem.waiters, taken, next);
  }

  lemma FreshAfterRemoval(ws: seq<Waiter>, i: nat, taken: set<nat>, next: nat)
    requires i < |ws| && QueueFresh(ws, taken, next)
    ensures QueueFresh(Without(ws, i), taken, next)
    ensures forall j | 0 <= j < |Without(ws, i)| :: Without(ws, i)[j].id != ws[i].id
  {
    var left := Without(ws, i);
    assert forall j | 0 <= j < |left| :: left[j] == ws[if j < i then j else j + 1];
  }

  /** A request that leaves the queue is gone from it and has not been taken on. */
  lemma FreshAfterLeaving(l: Limiter, taken: set<nat>, next: nat, id: nat)
    requires QueueFresh(l.sem.waiters, taken, next) && SemInv(l.sem) && Resume(l, id).1 != Ignored
    ensures QueueFresh(Resume(l, id).0.sem.waiters, taken, next)
    ensures forall w | w in Resume(l, id).0.sem.waiters :: w.id != id
    ensures id < next && id !in taken
  {
    var i := Find(l.sem.waiters, id);
    var left, woken := Without(l.sem.waiters, i), Leave(l.sem, i).waiters;
    FreshAfterRemoval(l.sem.waiters, i, taken, next);
    LeaveKeeps(l.sem, i);
    FreshAfterWaking(left, woken, taken, next);
    assert forall j | 0 <= j < |woken| :: woken[j].id == left[j].id;
  }

  lemma FreshAfterTaking(ws: seq<Waiter>, taken: set<nat>, next: nat, id: nat)
    requires QueueFresh(ws, taken, next) && id < next && forall w | w in ws :: w.id != id
    ensures QueueFresh(ws, taken + {id}, next)
  {
    assert forall i | 0 <= i < |ws| :: ws[i] in ws;
  }

  // ----- traces -----

  datatype Event = Arrival(id: nat) | Releasing | Timeout(id: nat) | Cancel(id: nat) | Resumption(id: nat)

  function Step(l: Limiter, e: Event, cap: int): (Limiter, Answer) {
    match e
    case Arrival(id) => Arrive(l, id, cap)
    case Releasing => (Release(l), Ignored)
    case Timeout(id) => (Disturb(l, id, TimedOut), Ignored)
    case Cancel(id) => (Disturb(l, id, TaskCancelled), Ignored)
    case Resumption(id) => Resume(l, id)
  }

  function Init(permits: nat, lib: Library): Limiter { Limiter(Sem(permits, [], lib), 0, 0) }

  /** The state after a trace of events. */
  function After(l: Limiter, es: seq<Event>, cap: int): Limiter {
    if es == [] then l else Step(After(l, es[..|es| - 1], cap), es[|es| - 1], cap).0
  }

  /** What the limiter answers to the last event of a trace. */
  function LastAnswer(l: Limiter, es: seq<Event>, cap: int): Answer
    requires es != []
  {
    Step(After(l, es[..|es| - 1], cap), es[|es| - 1], cap).1
  }

  /** What every event does to the permits: the pool (free, or granted but not yet taken up) gains one
      by a release and loses one exactly when a request goes on with a permit. */
  lemma StepKeeps(l: Limiter, e: Event, cap: int)
    requires LimiterInv(l, cap)
    ensures LimiterInv(Step(l, e, cap).0, cap)
    ensures Permits(Step(l, e, cap).0.sem) == Permits(l.sem)
              + (if e.Releasing? then 1 else 0) - (if Step(l, e, cap).1 == Acquired then 1 else 0)
  {
    var ws := l.sem.waiters;
    match e
    case Arrival(id) =>
      if Locked(l.sem) {
        EnqueueKeeps(l.sem, id);
      }
    case Releasing => WakeNextKeeps(l.sem.(value := l.sem.value + 1));
    case Timeout(id) => DisturbKeeps(l, id, TimedOut);
    case Cancel(id) => DisturbKeeps(l, id, TaskCancelled);
    case Resumption(id) =>
      var i := Find(ws, id);
      if i < |ws| && ws[i].fut != Waiting {
        LeaveKeeps(l.sem, i);
      }
  }

  function AcquiredIn(l: Limiter, es: seq<Event>, cap: int): nat {
    if es == [] then 0
    else AcquiredIn(l, es[..|es| - 1], cap) + if LastAnswer(l, es, cap) == Acquired then 1 else 0
  }

  function ReleasedIn(es: seq<Event>): nat {
    if es == [] then 0 else ReleasedIn(es[..|es| - 1]) + if es[|es| - 1].Releasing? then 1 else 0
  }

  /** Conservation over every trace: permits free, granted but not taken up, and taken up but not yet
      released add up to the configured number; the queue counter is the length of the queue plus the
      queued requests that were cancelled, and never exceeds the capacity; and nobody is overtaken. */
  lemma {:induction false} EveryTraceConserves(permits: nat, lib: Library, es: seq<Event>, cap: int)
    ensures var l := After(Init(permits, lib), es, cap);
      && LimiterInv(l, cap)
      && Permits(l.sem) + AcquiredIn(Init(permits, lib), es, cap) == permits + ReleasedIn(es)
  {
    if es != [] {
      var before := es[..|es| - 1];
      EveryTraceConserves(permits, lib, before, cap);
      StepKeeps(After(Init(permits, lib), before, cap), es[|es| - 1], cap);
    }
  }

  /** Every interruption recorded in the queue was caused by an event of the trace. */
  ghost predicate Caused(ws: seq<Waiter>, es: seq<Event>) {
    forall i | 0 <= i < |ws| ::
      && (ws[i].intr == TimedOut ==> Timeout(ws[i].id) in es)
      && (ws[i].intr == TaskCancelled ==> Cancel(ws[i].id) in es)
  }

  lemma CausedAfterWaking(ws: seq<Waiter>, ws': seq<Waiter>, es: seq<Event>)
    requires Caused(ws, es) && SameTasks(ws, ws')
    ensures Caused(ws', es)
  {
    assert forall i | 0 <= i < |ws'| :: ws'[i].id == ws[i].id && ws'[i].intr == ws[i].intr;
  }

  lemma CausedAfterResumption(l: Limiter, id: nat, es: seq<Event>)
    requires Caused(l.sem.waiters, es) && SemInv(l.sem)
    ensures Caused(Resume(l, id).0.sem.waiters, es)
  {
    var ws := l.sem.waiters;
    var i := Find(ws, id);
    if i < |ws| && ws[i].fut != Waiting {
      LeaveKeeps(l.sem, i);
      var left := Without(ws, i);
      assert forall j | 0 <= j < |left| :: left[j] == ws[if j < i then j else j + 1];
      CausedAfterWaking(left, Leave(l.sem, i).waiters, es);
    }
  }

  lemma {:induction false} InterruptsAreCaused(permits: nat, lib: Library, es: seq<Event>, cap: int)
    ensures Caused(After(Init(permits, lib), es, cap).sem.waiters, es)
  {
    if es != [] {
      var before, e := es[..|es| - 1], es[|es| - 1];
      InterruptsAreCaused(permits, lib, before, cap);
      EveryTraceConserves(permits, lib, before, cap);
      var l := After(Init(permits, lib), before, cap);
      assert forall x | x in before :: x in es;
      assert Caused(l.sem.waiters, es) && e in es;
      match e
      case Arrival(_) =>
      case Releasing =>
        WakeNextKeeps(l.sem.(value := l.sem.value + 1));
        CausedAfterWaking(l.sem.waiters, Release(l).sem.waiters, es);
      case Timeout(_) =>
      case Cancel(_) =>
      case Resumption(id) => CausedAfterResumption(l, id, es);
    }
  }

  ghost predicate Justified(l: Limiter, e: Event, answer: Answer, es: seq<Event>, cap: int) {
    match answer
    case Rejected => e.Arrival? && |l.sem.waiters| + l.leaked >= cap && Locked(l.sem)
    case GaveUp => e.Resumption? && Timeout(e.id) in es
    case Raised => e.Resumption? && Cancel(e.id) in es
    case Queued => e.Arrival? && |l.sem.waiters| + l.leaked < cap
    case Acquired => e.Arrival? ==> l.sem.value > 0 && forall w | w in l.sem.waiters :: w.fut == Cancelled
    case Ignored => true
  }

  lemma StepJustified(l: Limiter, e: Event, es: seq<Event>, cap: int)
    requires LimiterInv(l, cap) && Caused(l.sem.waiters, es)
    ensures Justified(l, e, Step(l, e, cap).1, es, cap)
  {
    if e.Resumption? && Find(l.sem.waiters, e.id) < |l.sem.waiters| {
      assert l.sem.waiters[Find(l.sem.waiters, e.id)].id == e.id;
    }
  }

  /** What each answer tells a caller: a refusal on arrival means the counter was at capacity and no
      permit was to be had; giving up means the request's own timeout expired; an exception means its
      task was cancelled; and an arrival that is served at once overtakes no live waiter. */
  lemma AnswersAreJustified(permits: nat, lib: Library, es: seq<Event>, cap: int)
    requires es != []
    ensures Justified(After(Init(permits, lib), es[..|es| - 1], cap), es[|es| - 1], LastAnswer(Init(permits, lib), es, cap), es, cap)
  {
    var before := es[..|es| - 1];
    EveryTraceConserves(permits, lib, before, cap);
    InterruptsAreCaused(permits, lib, before, cap);
    assert forall x | x in before :: x in es;
    StepJustified(After(Init(permits, lib), before, cap), es[|es| - 1], es, cap);
  }

  // ----- two limiters with different boundary tests -----

  /** The gateway counts the newcomer and rejects if the count now exceeds the queue size. */
  function GatewayCapacity(queueSize: int): int { queueSize }

  /** Django counts the newcomer and rejects if the depth now reaches the queue size. */
  function DjangoCapacity(queueSize: int): int { queueSize - 1 }

  /** Two capacities give the same answer to the last, hence to every, event of every trace. */
  ghost predicate SameDecisions(permits: nat, lib: Library, a: int, b: int) {
    forall es | es != [] :: LastAnswer(Init(permits, lib), es, a) == LastAnswer(Init(permits, lib), es, b)
  }

  lemma {:induction false} EqualCapacitiesAgree(permits: nat, lib: Library, es: seq<Event>, a: int, b: int)
    requires Max(0, a) == Max(0, b)
    ensures After(Init(permits, lib), es, a) == After(Init(permits, lib), es, b)
    ensures es != [] ==> LastAnswer(Init(permits, lib), es, a) == LastAnswer(Init(permits, lib), es, b)
  {
    if es != [] {
      var before := es[..|es| - 1];
      EqualCapacitiesAgree(permits, lib, before, a, b);
      EveryTraceConserves(permits, lib, before, a);
    }
  }

  /** A burst of arrivals and nothing else. */
  function Burst(k: nat): (es: seq<Event>)
    ensures |es| == k
  {
    seq(k, (i: nat) => Arrival(i))
  }

  /** A burst first takes every permit, then fills the queue. */
  lemma {:induction false} BurstState(permits: nat, lib: Library, k: nat, cap: int)
    requires k <= permits + Max(0, cap)
    ensures var l := After(Init(permits, lib), Burst(k), cap);
      && l.count == |l.sem.waiters| == Max(0, k - permits)
      && l.sem.value == Max(0, permits - k)
      && forall w | w in l.sem.waiters :: w.fut == Waiting
  {
    if k > 0 {
      BurstState(permits, lib, k - 1, cap);
      assert Burst(k)[..k - 1] == Burst(k - 1);
      var l := After(Init(permits, lib), Burst(k - 1), cap);
      assert l.sem.value == 0 || l.sem.waiters == [];
    }
  }

  /** Two limiters make the same decisions on every trace if and only if they have the same effective
      capacity. */
  lemma SameDecisionsExactly(permits: nat, lib: Library, a: int, b: int)
    ensures SameDecisions(permits, lib, a, b) <==> Max(0, a) == Max(0, b)
  {
    if Max(0, a) == Max(0, b) {
      forall es: seq<Event> | es != []
        ensures LastAnswer(Init(permits, lib), es, a) == LastAnswer(Init(permits, lib), es, b)
      {
        EqualCapacitiesAgree(permits, lib, es, a, b);
      }
    } else {
      var k := permits + if Max(0, a) < Max(0, b) then Max(0, a) else Max(0, b);
      BurstState(permits, lib, k, a);
      BurstState(permits, lib, k, b);
      assert Burst(k + 1)[..k] == Burst(k);
      assert LastAnswer(Init(permits, lib), Burst(k + 1), a) != LastAnswer(Init(permits, lib), Burst(k + 1), b);
    }
  }

  /** The gateway configured with queue size g and Django configured with queue size d are
      interchangeable exactly when d = g + 1, or when neither ever lets a request queue. */
  lemma DjangoSimulatesGateway(permits: nat, lib: Library, g: int, d: int)
    ensures SameDecisions(permits, lib, GatewayCapacity(g), DjangoCapacity(d)) <==> (d == g + 1 || (g <= 0 && d <= 1))
  {
    SameDecisionsExactly(permits, lib, GatewayCapacity(g), DjangoCapacity(d));
  }

  ghost predicate NeverQueuesMoreThan(permits: nat, lib: Library, cap: int, n: int) {
    forall es :: |After(Init(permits, lib), es, cap).sem.waiters| <= n
  }

  lemma QueueLimitIsTight(permits: nat, lib: Library, cap: int, n: int)
    ensures NeverQueuesMoreThan(permits, lib, cap, n) <==> Max(0, cap) <= n
  {
    if Max(0, cap) <= n {
      forall es ensures |After(Init(permits, lib), es, cap).sem.waiters| <= n {
        EveryTraceConserves(permits, lib, es, cap);
      }
    } else {
      BurstState(permits, lib, permits + Max(0, cap), cap);
    }
  }

  /** With one setting for both services, the gateway's longest queue is that setting and Django's is
      one less: neither bound can be lowered. */
  lemma DjangoQueuesOneLess(permits: nat, lib: Library, queueSize: int, n: int)
    requires queueSize >= 1
    ensures NeverQueuesMoreThan(permits, lib, GatewayCapacity(queueSize), n) <==> queueSize <= n
    ensures NeverQueuesMoreThan(permits, lib, DjangoCapacity(queueSize), n) <==> queueSize - 1 <= n
  {
    QueueLimitIsTight(permits, lib, GatewayCapacity(queueSize), n);
    QueueLimitIsTight(permits, lib, DjangoCapacity(queueSize), n);
  }

  /** How many queued requests of a trace saw their task cancelled. */
  function RaisedIn(l: Limiter, es: seq<Event>, cap: int): nat {
    if es == [] then 0
    else RaisedIn(l, es[..|es| - 1], cap) + if LastAnswer(l, es, cap) == Raised then 1 else 0
  }

  lemma LeakStep(l: Limiter, e: Event, cap: int)
    ensures Step(l, e, cap).0.leaked == l.leaked + if Step(l, e, cap).1 == Raised then 1 else 0
  {
  }

  lemma {:induction false} LeakedAreRaised(permits: nat, lib: Library, es: seq<Event>, cap: int)
    ensures After(Init(permits, lib), es, cap).leaked == RaisedIn(Init(permits, lib), es, cap)
  {
    if es != [] {
      LeakedAreRaised(permits, lib, es[..|es| - 1], cap);
      LeakStep(After(Init(permits, lib), es[..|es| - 1], cap), es[|es| - 1], cap);
    }
  }

  /** The counter is the number of queued requests plus that of the requests cancelled in the queue so
      far; so it equals the number of queued requests exactly as long as none has been cancelled. */
  lemma {:induction false} CounterIsQueueLengthExactly(permits: nat, lib: Library, es: seq<Event>, cap: int)
    ensures var l, raised := After(Init(permits, lib), es, cap), RaisedIn(Init(permits, lib), es, cap);
      && l.count == |l.sem.waiters| + raised
      && (l.count == |l.sem.waiters| <==> raised == 0)
  {
    EveryTraceConserves(permits, lib, es, cap);
    LeakedAreRaised(permits, lib, es, cap);
  }

  /** One cancellation in the queue is enough to shrink it for good: with one permit and room for one,
      after it every later arrival that finds no permit is rejected although nobody waits. */
  lemma CancelledWaiterOccupiesQueue(lib: Library)
    ensures var es := [Arrival(0), Arrival(1), Cancel(1), Resumption(1), Arrival(2)];
      && LastAnswer(Init(1, lib), es, 1) == Rejected
      && After(Init(1, lib), es, 1).sem.waiters == []
  {
    var t1, t2, t3 := [Arrival(0)], [Arrival(0), Arrival(1)], [Arrival(0), Arrival(1), Cancel(1)];
    var t4 := [Arrival(0), Arrival(1), Cancel(1), Resumption(1)];
    var es := [Arrival(0), Arrival(1), Cancel(1), Resumption(1), Arrival(2)];
    assert es[..4] == t4 && t4[..3] == t3 && t3[..2] == t2 && t2[..1] == t1 && t1[..0] == [];
    assert After(Init(1, lib), t1, 1) == Limiter(Sem(0, [], lib), 0, 0);
    assert After(Init(1, lib), t2, 1) == Limiter(Sem(0, [Waiter(1, Waiting, NoInterrupt)], lib), 1, 0);
    assert After(Init(1, lib), t3, 1) == Limiter(Sem(0, [Waiter(1, Cancelled, TaskCancelled)], lib), 1, 0);
    assert After(Init(1, lib), t4, 1) == Limiter(Sem(0, [], lib), 1, 1);
  }
}
