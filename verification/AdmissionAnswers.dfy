/** What the limiter answers, in terms of the trace alone: which arrivals are served, queued or refused, and how
    the wait of a queued request ends. */
module AdmissionAnswers {
  import opened Admission

  lemma OneMore(l: Limiter, es: seq<Event>, e: Event, cap: int)
    ensures After(l, es + [e], cap) == Step(After(l, es, cap), e, cap).0
    ensures LastAnswer(l, es + [e], cap) == Step(After(l, es, cap), e, cap).1
  {
    assert (es + [e])[..|es|] == es;
  }

  predicate Live(w: Waiter) { w.fut != Cancelled }

  /** An arrival is served at once exactly if a permit is free and no live waiter is ahead; otherwise it is queued
      exactly if the requests queued or cancelled in the queue so far are fewer than the capacity. */
  lemma ArrivalExactly(permits: nat, lib: Library, es: seq<Event>, cap: int, id: nat)
    ensures var l := After(Init(permits, lib), es, cap);
      LastAnswer(Init(permits, lib), es + [Arrival(id)], cap) ==
        if l.sem.value > 0 && forall w | w in l.sem.waiters :: !Live(w) then Acquired
        else if |l.sem.waiters| + RaisedIn(Init(permits, lib), es, cap) < cap then Queued
        else Rejected
  {
    OneMore(Init(permits, lib), es, Arrival(id), cap);
    CounterIsQueueLengthExactly(permits, lib, es, cap);
  }

  // ----- the wait of one request -----

  /** The request is in the queue once, with this interruption. */
  ghost predicate InLine(ws: seq<Waiter>, id: nat, intr: Interrupt) {
    exists i :: 0 <= i < |ws| && IsAt(ws, id, i) && ws[i].intr == intr
  }

  ghost predicate IsAt(ws: seq<Waiter>, id: nat, i: nat)
    requires i < |ws|
  {
    ws[i].id == id && forall j | 0 <= j < |ws| && j != i :: ws[j].id != id
  }

  /** What has happened to a queued request; a cancellation of its task outweighs its timeout. */
  function Verdict(es: seq<Event>, id: nat): Interrupt {
    if Cancel(id) in es then TaskCancelled else if Timeout(id) in es then TimedOut else NoInterrupt
  }

  lemma FoundAt(ws: seq<Waiter>, id: nat, i: nat)
    requires i < |ws| && IsAt(ws, id, i)
    ensures Find(ws, id) == i
  {
  }

  lemma SameLine(ws: seq<Waiter>, ws': seq<Waiter>, id: nat, intr: Interrupt)
    requires InLine(ws, id, intr) && SameTasks(ws, ws')
    ensures InLine(ws', id, intr)
  {
    var i :| 0 <= i < |ws| && IsAt(ws, id, i) && ws[i].intr == intr;
    assert forall j | 0 <= j < |ws| :: ws'[j].id == ws[j].id;
    assert IsAt(ws', id, i);
  }

  lemma OthersArrive(l: Limiter, x: nat, cap: int, id: nat, intr: Interrupt)
    requires InLine(l.sem.waiters, id, intr) && x != id
    ensures InLine(Arrive(l, x, cap).0.sem.waiters, id, intr)
  {
    var ws := l.sem.waiters;
    var i :| 0 <= i < |ws| && IsAt(ws, id, i) && ws[i].intr == intr;
    var ws' := Arrive(l, x, cap).0.sem.waiters;
    assert IsAt(ws', id, i);
  }

  lemma OthersDisturbed(l: Limiter, x: nat, why: Interrupt, id: nat, intr: Interrupt)
    requires InLine(l.sem.waiters, id, intr) && x != id
    ensures InLine(Disturb(l, x, why).sem.waiters, id, intr)
  {
    var ws := l.sem.waiters;
    var i :| 0 <= i < |ws| && IsAt(ws, id, i) && ws[i].intr == intr;
    var ws' := Disturb(l, x, why).sem.waiters;
    assert |ws'| == |ws| && forall j | 0 <= j < |ws| :: ws'[j].id == ws[j].id;
    assert IsAt(ws', id, i);
  }

  lemma ItselfDisturbed(l: Limiter, why: Interrupt, id: nat, intr: Interrupt)
    requires InLine(l.sem.waiters, id, intr)
    ensures InLine(Disturb(l, id, why).sem.waiters, id, if intr == TaskCancelled then TaskCancelled else why)
  {
    var ws := l.sem.waiters;
    var i :| 0 <= i < |ws| && IsAt(ws, id, i) && ws[i].intr == intr;
    FoundAt(ws, id, i);
    var ws' := Disturb(l, id, why).sem.waiters;
    assert IsAt(ws', id, i);
  }

  lemma OneRemoved(ws: seq<Waiter>, k: nat, id: nat, intr: Interrupt)
    requires k < |ws| && ws[k].id != id && InLine(ws, id, intr)
    ensures InLine(Without(ws, k), id, intr)
  {
    var left := Without(ws, k);
    var i :| 0 <= i < |ws| && IsAt(ws, id, i) && ws[i].intr == intr;
    assert forall j | 0 <= j < |left| :: left[j] == ws[if j < k then j else j + 1];
    assert IsAt(left, id, if i < k then i else i - 1);
  }

  lemma OthersResume(l: Limiter, x: nat, id: nat, intr: Interrupt)
    requires SemInv(l.sem) && InLine(l.sem.waiters, id, intr) && x != id
    ensures InLine(Resume(l, x).0.sem.waiters, id, intr)
  {
    var ws := l.sem.waiters;
    var k := Find(ws, x);
    if k < |ws| && ws[k].fut != Waiting {
      OneRemoved(ws, k, id, intr);
      LeaveKeeps(l.sem, k);
      SameLine(Without(ws, k), Leave(l.sem, k).waiters, id, intr);
    }
  }

  lemma StepKeepsLine(l: Limiter, e: Event, cap: int, id: nat, intr: Interrupt)
    requires LimiterInv(l, cap) && InLine(l.sem.waiters, id, intr)
    requires e != Arrival(id) && e != Resumption(id)
    ensures InLine(Step(l, e, cap).0.sem.waiters, id,
                   if e == Cancel(id) || intr == TaskCancelled then TaskCancelled
                   else if e == Timeout(id) then TimedOut else intr)
  {
    match e
    case Arrival(x) => OthersArrive(l, x, cap, id, intr);
    case Releasing =>
      WakeNextKeeps(l.sem.(value := l.sem.value + 1));
      SameLine(l.sem.waiters, Release(l).sem.waiters, id, intr);
    case Timeout(x) => if x == id { ItselfDisturbed(l, TimedOut, id, intr); } else { OthersDisturbed(l, x, TimedOut, id, intr); }
    case Cancel(x) => if x == id { ItselfDisturbed(l, TaskCancelled, id, intr); } else { OthersDisturbed(l, x, TaskCancelled, id, intr); }
    case Resumption(x) => OthersResume(l, x, id, intr);
  }

  /** A request of a trace: es1 goes before it, it is queued, and es2 is what happens until it runs again. */
  ghost predicate QueuedIn(permits: nat, lib: Library, es1: seq<Event>, es2: seq<Event>, cap: int, id: nat) {
    && Arrival(id) !in es1 && LastAnswer(Init(permits, lib), es1 + [Arrival(id)], cap) == Queued
    && Arrival(id) !in es2 && Resumption(id) !in es2
  }

  function Whole(es1: seq<Event>, id: nat, es2: seq<Event>): seq<Event> { es1 + [Arrival(id)] + es2 }

  /** Nobody is in the queue who did not arrive. */
  lemma {:induction false} WaitersArrived(permits: nat, lib: Library, es: seq<Event>, cap: int)
    ensures forall w | w in After(Init(permits, lib), es, cap).sem.waiters :: Arrival(w.id) in es
  {
    if es != [] {
      var before, e := es[..|es| - 1], es[|es| - 1];
      var l := After(Init(permits, lib), before, cap);
      WaitersArrived(permits, lib, before, cap);
      EveryTraceConserves(permits, lib, before, cap);
      assert forall x | x in before :: x in es;
      assert e in es;
      StepAddsArrivals(l, e, cap);
    }
  }

  /** Whoever is in the second queue is in the first. */
  ghost predicate SameIds(ws: seq<Waiter>, ws': seq<Waiter>) {
    forall k | 0 <= k < |ws'| :: Has(ws, ws'[k].id)
  }

  ghost predicate Has(ws: seq<Waiter>, id: nat) { exists k :: 0 <= k < |ws| && ws[k].id == id }

  lemma PlacesGiveIds(ws: seq<Waiter>, ws': seq<Waiter>)
    requires |ws'| <= |ws| && forall k | 0 <= k < |ws'| :: ws'[k].id == ws[k].id
    ensures SameIds(ws, ws')
  {
    forall k | 0 <= k < |ws'| ensures Has(ws, ws'[k].id) {
      assert ws[k].id == ws'[k].id;
    }
  }

  lemma ResumptionGivesIds(l: Limiter, x: nat)
    requires SemInv(l.sem)
    ensures SameIds(l.sem.waiters, Resume(l, x).0.sem.waiters)
  {
    var ws := l.sem.waiters;
    var i := Find(ws, x);
    if i < |ws| && ws[i].fut != Waiting {
      LeaveKeeps(l.sem, i);
      var ws' := Leave(l.sem, i).waiters;
      forall k | 0 <= k < |ws'| ensures Has(ws, ws'[k].id) {
        assert ws'[k].id == Without(ws, i)[k].id == ws[if k < i then k else k + 1].id;
      }
    } else {
      PlacesGiveIds(ws, ws);
    }
  }

  lemma StepAddsArrivals(l: Limiter, e: Event, cap: int)
    requires LimiterInv(l, cap)
    ensures forall w' | w' in Step(l, e, cap).0.sem.waiters :: e == Arrival(w'.id) || Has(l.sem.waiters, w'.id)
  {
    match e
    case Arrival(x) =>
      var ws' := Arrive(l, x, cap).0.sem.waiters;
      assert forall k | 0 <= k < |ws'| :: ws'[k].id == x || Has(l.sem.waiters, ws'[k].id);
    case Releasing =>
      WakeNextKeeps(l.sem.(value := l.sem.value + 1));
      PlacesGiveIds(l.sem.waiters, Release(l).sem.waiters);
    case Timeout(x) => PlacesGiveIds(l.sem.waiters, Disturb(l, x, TimedOut).sem.waiters);
    case Cancel(x) => PlacesGiveIds(l.sem.waiters, Disturb(l, x, TaskCancelled).sem.waiters);
    case Resumption(x) => ResumptionGivesIds(l, x);
  }

  /** While it is queued, a request's record shows exactly what happened to it. */
  lemma {:induction false} StaysInLine(permits: nat, lib: Library, es1: seq<Event>, es2: seq<Event>, cap: int, id: nat)
    requires QueuedIn(permits, lib, es1, es2, cap, id)
    ensures InLine(After(Init(permits, lib), Whole(es1, id, es2), cap).sem.waiters, id, Verdict(es2, id))
    decreases |es2|
  {
    var start := Init(permits, lib);
    if es2 == [] {
      var l := After(start, es1, cap);
      OneMore(start, es1, Arrival(id), cap);
      WaitersArrived(permits, lib, es1, cap);
      assert Whole(es1, id, []) == es1 + [Arrival(id)];
      var ws' := After(start, es1 + [Arrival(id)], cap).sem.waiters;
      assert forall j | 0 <= j < |l.sem.waiters| :: l.sem.waiters[j] in l.sem.waiters;
      assert IsAt(ws', id, |l.sem.waiters|);
    } else {
      var before, e := es2[..|es2| - 1], es2[|es2| - 1];
      assert es2 == before + [e];
      StaysInLine(permits, lib, es1, before, cap, id);
      EveryTraceConserves(permits, lib, Whole(es1, id, before), cap);
      assert Whole(es1, id, es2) == Whole(es1, id, before) + [e];
      OneMore(start, Whole(es1, id, before), e, cap);
      StepKeepsLine(After(start, Whole(es1, id, before), cap), e, cap, id, Verdict(before, id));
    }
  }

  /** How the wait of a queued request ends, for every trace: when it runs again it raises if its task has been
      cancelled, gives up if only its timeout has expired, goes on with its permit if neither has and it
      has been granted one, and otherwise is not run. */
  lemma WaitEndsExactly(permits: nat, lib: Library, es1: seq<Event>, es2: seq<Event>, cap: int, id: nat)
    requires QueuedIn(permits, lib, es1, es2, cap, id)
    ensures var ws := After(Init(permits, lib), Whole(es1, id, es2), cap).sem.waiters;
      Find(ws, id) < |ws| &&
      LastAnswer(Init(permits, lib), Whole(es1, id, es2) + [Resumption(id)], cap) ==
        if Cancel(id) in es2 then Raised
        else if Timeout(id) in es2 then GaveUp
        else if ws[Find(ws, id)].fut == Granted then Acquired
        else Ignored
  {
    var l := After(Init(permits, lib), Whole(es1, id, es2), cap);
    var ws := l.sem.waiters;
    StaysInLine(permits, lib, es1, es2, cap, id);
    EveryTraceConserves(permits, lib, Whole(es1, id, es2), cap);
    var i :| 0 <= i < |ws| && IsAt(ws, id, i) && ws[i].intr == Verdict(es2, id);
    FoundAt(ws, id, i);
    OneMore(Init(permits, lib), Whole(es1, id, es2), Resumption(id), cap);
  }

  lemma FoundAgain(ws: seq<Waiter>, i: nat, w: Waiter)
    requires i < |ws| && i == Find(ws, w.id)
    ensures Find(ws[i := w], w.id) == i
  {
    var ws' := ws[i := w];
    assert ws'[i].id == w.id;
    assert forall j | 0 <= j < i :: ws'[j].id != w.id;
  }

  ghost predicate InQueue(l: Limiter, id: nat) { Find(l.sem.waiters, id) < |l.sem.waiters| }

  ghost function WaiterOf(l: Limiter, id: nat): Waiter
    requires InQueue(l, id)
  {
    l.sem.waiters[Find(l.sem.waiters, id)]
  }

  /** The record of a queued request after its timeout or a cancellation of its task. */
  lemma DisturbedExactly(l: Limiter, id: nat, why: Interrupt)
    requires InQueue(l, id)
    ensures var l' := Disturb(l, id, why);
      && InQueue(l', id)
      && WaiterOf(l', id).fut == (if WaiterOf(l, id).fut == Waiting then Cancelled else WaiterOf(l, id).fut)
      && WaiterOf(l', id).intr == (if WaiterOf(l, id).intr == TaskCancelled then TaskCancelled else why)
  {
    var i := Find(l.sem.waiters, id);
    FoundAgain(l.sem.waiters, i, Interrupted(l.sem.waiters[i], why));
  }

  lemma OldestIsGranted(l: Limiter, id: nat)
    requires SemInv(l.sem) && Find(l.sem.waiters, id) < |l.sem.waiters| && Find(l.sem.waiters, id) == FirstWaiting(l.sem.waiters)
    ensures var ws' := Release(l).sem.waiters;
      Find(ws', id) < |ws'| && ws'[Find(ws', id)].fut == Granted && ws'[Find(ws', id)].intr == NoInterrupt
  {
    var i := FirstWaiting(l.sem.waiters);
    var w := l.sem.waiters[i].(fut := Granted);
    FoundAgain(l.sem.waiters, i, w);
    assert Release(l).sem.waiters == l.sem.waiters[i := w];
  }

  /** A release serves the longest waiting request: it is granted the permit, and unless something else happens to
      it, goes on when it runs. */
  lemma ReleaseServesOldest(permits: nat, lib: Library, es: seq<Event>, cap: int, id: nat)
    requires var ws := After(Init(permits, lib), es, cap).sem.waiters;
      Find(ws, id) < |ws| && Find(ws, id) == FirstWaiting(ws)
    ensures LastAnswer(Init(permits, lib), es + [Releasing] + [Resumption(id)], cap) == Acquired
  {
    var start := Init(permits, lib);
    EveryTraceConserves(permits, lib, es, cap);
    OneMore(start, es, Releasing, cap);
    OneMore(start, es + [Releasing], Resumption(id), cap);
    OldestIsGranted(After(start, es, cap), id);
  }
}
