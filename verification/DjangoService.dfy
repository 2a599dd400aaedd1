/** Any number of requests in Django's chat completion service at once, on the limiter of Admission.
    A label is one stretch of code between two suspension points.  The trail is history: everything
    done for any request, in order. */
module DjangoService {
  import opened Admission
  import opened ChatCompletion
  import opened Tally

  datatype Config = Config(lib: Library, permits: nat, queueSize: int)

  /** What the stretch that starts with a permit comes to. */
  datatype Plan = NoBackend | NoResponse | MakeStream | MakePost

  type Recorded = e: Exchange | Loggable(e) witness TurnedAway

  /** Where a request that got its answer from the limiter is suspended. */
  datatype Stage =
    | StreamMade(hasKey: bool)
    | Streaming(hasKey: bool)
    | Posting(hasKey: bool)
    | Logging(e: Recorded, hasKey: bool)
    | Charging(e: Recorded, hasKey: bool)
    | CountingUse(e: Recorded)
    | Ended(script: Script)

  datatype Move =
    | StreamStarts
    | StreamDropped
    | StreamEnds(send: StreamEnd)
    | PostEnds(pend: PostEnd)
    | LogEnds(fails: bool)
    | QuotaEnds(fails: bool)
    | UsageEnds(fails: bool)

  datatype Deed = Deed(id: nat, act: Act)

  datatype Svc = Svc(lim: Limiter, stage: map<nat, Stage>, trail: seq<Deed>, next: nat)

  datatype Label =
    | Arrives(hasKey: bool, plan: Plan)
    | TimesOut(id: nat)
    | IsCancelled(id: nat)
    | Resumes(id: nat, hasKey: bool, plan: Plan)
    | Moves(id: nat, move: Move)

  function Start(c: Config): Svc { Svc(Init(c.permits, c.lib), map[], [], 0) }

  function Undisturbed(e: Exchange, hasKey: bool): Script { Script(e, hasKey, false, false, false) }

  /** From the acquired permit to the first suspension. */
  function Begin(plan: Plan, hasKey: bool): (Stage, seq<Act>) {
    match plan
    case NoBackend => (Ended(Undisturbed(BackendNotBuilt, hasKey)), [Released])
    case NoResponse => (Ended(Undisturbed(ResponseNotBuilt, hasKey)), [GaugeUp])
    case MakeStream => (StreamMade(hasKey), [GaugeUp])
    case MakePost => (Posting(hasKey), [GaugeUp])
  }

  /** The finally block of a plain exchange. */
  function Closing(e: Exchange): seq<Act> {
    if e.Post? then [GaugeDown, Released] else []
  }

  predicate CanMove(st: Stage, m: Move) {
    match m
    case StreamStarts => st.StreamMade?
    case StreamDropped => st.StreamMade?
    case StreamEnds(_) => st.Streaming?
    case PostEnds(_) => st.Posting?
    case LogEnds(_) => st.Logging?
    case QuotaEnds(_) => st.Charging?
    case UsageEnds(_) => st.CountingUse?
  }

  function Moved(st: Stage, m: Move): (Stage, seq<Act>)
    requires CanMove(st, m)
  {
    match m
    case StreamStarts => (Streaming(st.hasKey), [])
    case StreamDropped => (Ended(Undisturbed(NeverIterated, st.hasKey)), [])
    case StreamEnds(end) => (Logging(Stream(end), st.hasKey), [GaugeDown, Released])
    case PostEnds(end) =>
      if end.PostEscapes? then (Ended(Undisturbed(Post(end), st.hasKey)), [GaugeDown, Released])
      else (Logging(Post(end), st.hasKey), [])
    case LogEnds(fails) =>
      if fails then (Ended(Undisturbed(st.e, st.hasKey).(logFails := true)), Closing(st.e))
      else if EntryOf(st.e).errorKind == "" then (Charging(st.e, st.hasKey), [Logged(EntryOf(st.e))])
      else (Ended(Undisturbed(st.e, st.hasKey)), [Logged(EntryOf(st.e))] + Closing(st.e))
    case QuotaEnds(fails) =>
      if fails then (Ended(Undisturbed(st.e, st.hasKey).(quotaFails := true)), Closing(st.e))
      else if st.hasKey then (CountingUse(st.e), [Charged])
      else (Ended(Undisturbed(st.e, false)), [Charged] + Closing(st.e))
    case UsageEnds(fails) =>
      (Ended(Undisturbed(st.e, true).(usageFails := fails)), (if fails then [] else [KeyUsed]) + Closing(st.e))
  }

  function Tagged(id: nat, acts: seq<Act>): seq<Deed> {
    if acts == [] then [] else [Deed(id, acts[0])] + Tagged(id, acts[1..])
  }

  function Perform(s: Svc, id: nat, st: Stage, acts: seq<Act>): Svc {
    s.(stage := s.stage[id := st],
       trail := s.trail + Tagged(id, acts),
       lim := if Released in acts then Release(s.lim) else s.lim)
  }

  /** What a request does with the limiter's answer. */
  function Answered(s: Svc, id: nat, answer: Answer, hasKey: bool, plan: Plan): Svc {
    match answer
    case Acquired => var (st, acts) := Begin(plan, hasKey); Perform(s, id, st, acts)
    case Rejected => Perform(s, id, Logging(TurnedAway, hasKey), [])
    case GaveUp => Perform(s, id, Logging(TurnedAway, hasKey), [])
    case _ => s
  }

  predicate Enabled(s: Svc, l: Label) {
    match l
    case Arrives(_, _) => true
    case TimesOut(id) => Find(s.lim.sem.waiters, id) < |s.lim.sem.waiters|
    case IsCancelled(id) => Find(s.lim.sem.waiters, id) < |s.lim.sem.waiters|
    case Resumes(id, _, _) => Resume(s.lim, id).1 != Ignored
    case Moves(id, m) => id in s.stage && CanMove(s.stage[id], m)
  }

  function Next(c: Config, s: Svc, l: Label): Svc
    requires Enabled(s, l)
  {
    match l
    case Arrives(hasKey, plan) =>
      var (lim, answer) := Arrive(s.lim, s.next, DjangoCapacity(c.queueSize));
      Answered(s.(lim := lim, next := s.next + 1), s.next, answer, hasKey, plan)
    case TimesOut(id) => s.(lim := Disturb(s.lim, id, TimedOut))
    case IsCancelled(id) => s.(lim := Disturb(s.lim, id, TaskCancelled))
    case Resumes(id, hasKey, plan) =>
      var (lim, answer) := Resume(s.lim, id);
      Answered(s.(lim := lim, next := s.next), id, answer, hasKey, plan)
    case Moves(id, m) => var (st, acts) := Moved(s.stage[id], m); Perform(s, id, st, acts)
  }

  predicate IsRun(c: Config, ls: seq<Label>)
    decreases |ls|, 0
  {
    ls == [] || (IsRun(c, ls[..|ls| - 1]) && Enabled(State(c, ls[..|ls| - 1]), ls[|ls| - 1]))
  }

  function State(c: Config, ls: seq<Label>): Svc
    requires IsRun(c, ls)
    decreases |ls|, 1
  {
    if ls == [] then Start(c) else Next(c, State(c, ls[..|ls| - 1]), ls[|ls| - 1])
  }

  // ----- what has been done for one request -----

  function Of(trail: seq<Deed>, id: nat): seq<Act> {
    if trail == [] then []
    else
      var last := trail[|trail| - 1];
      Of(trail[..|trail| - 1], id) + if last.id == id then [last.act] else []
  }

  lemma OfLonger(trail: seq<Deed>, deed: Deed, x: nat)
    ensures Of(trail + [deed], x) == if x == deed.id then Of(trail, x) + [deed.act] else Of(trail, x)
  {
    assert (trail + [deed])[..|trail|] == trail;
  }

  lemma Regroup<T>(front: seq<T>, all: seq<T>, x: T, rest: seq<T>)
    requires all == [x] + rest
    ensures front + all == front + [x] + rest
  {
  }

  lemma {:induction false} OfOwn(trail: seq<Deed>, id: nat, acts: seq<Act>)
    ensures Of(trail + Tagged(id, acts), id) == Of(trail, id) + acts
    decreases |acts|
  {
    if acts == [] {
      assert trail + Tagged(id, acts) == trail;
    } else {
      var first := Deed(id, acts[0]);
      OfLonger(trail, first, id);
      OfOwn(trail + [first], id, acts[1..]);
      Regroup(trail, Tagged(id, acts), first, Tagged(id, acts[1..]));
      Regroup(Of(trail, id), acts, acts[0], acts[1..]);
    }
  }

  lemma {:induction false} OfOthers(trail: seq<Deed>, id: nat, acts: seq<Act>, x: nat)
    requires x != id
    ensures Of(trail + Tagged(id, acts), x) == Of(trail, x)
    decreases |acts|
  {
    if acts == [] {
      assert trail + Tagged(id, acts) == trail;
    } else {
      var first := Deed(id, acts[0]);
      OfLonger(trail, first, x);
      OfOthers(trail + [first], id, acts[1..], x);
      Regroup(trail, Tagged(id, acts), first, Tagged(id, acts[1..]));
    }
  }

  /** How often something was done for a request in the whole run. */
  function Times(trail: seq<Deed>, deed: Deed): nat {
    if trail == [] then 0
    else Times(trail[..|trail| - 1], deed) + if trail[|trail| - 1] == deed then 1 else 0
  }

  lemma {:induction false} OfCounts(trail: seq<Deed>, id: nat, a: Act)
    ensures Count(Of(trail, id), a) == Times(trail, Deed(id, a))
  {
    if trail != [] {
      var before, last := trail[..|trail| - 1], trail[|trail| - 1];
      OfCounts(before, id, a);
      if last.id == id {
        assert Of(trail, id) == Of(before, id) + [last.act];
        CountJoined(Of(before, id), [last.act], a);
      } else {
        assert Of(trail, id) == Of(before, id);
      }
    }
  }

  function Opening(e: Recorded): seq<Act> {
    match e
    case TurnedAway => []
    case Stream(_) => [GaugeUp, GaugeDown, Released]
    case Post(_) => [GaugeUp]
  }

  /** What must have been done for a request to be where it is. */
  function Past(st: Stage): seq<Act> {
    match st
    case StreamMade(_) => [GaugeUp]
    case Streaming(_) => [GaugeUp]
    case Posting(_) => [GaugeUp]
    case Logging(e, _) => Opening(e)
    case Charging(e, _) => Opening(e) + [Logged(EntryOf(e))]
    case CountingUse(e) => Opening(e) + [Logged(EntryOf(e)), Charged]
    case Ended(script) => Acts(script)
  }

  /** Only what was logged clean is charged. */
  predicate Sound(st: Stage) {
    st.Charging? || st.CountingUse? ==> EntryOf(st.e).errorKind == ""
  }

  predicate Holding(st: Stage) {
    match st
    case Logging(e, _) => e.Post?
    case Charging(e, _) => e.Post?
    case CountingUse(e) => e.Post?
    case Ended(_) => false
    case _ => true
  }

  predicate Forfeit(st: Stage) { st.Ended? && !Handled(st.script.exchange) }

  predicate Unreturned(st: Stage) { Holding(st) || Forfeit(st) }

  lemma BeginFits(plan: Plan, hasKey: bool)
    ensures var (st, acts) := Begin(plan, hasKey);
      Sound(st) && Past(st) == acts && (Unreturned(st) <==> Released !in acts)
  {
  }

  /** A move adds its acts to the past, and ends the use of a permit exactly by releasing it. */
  ghost predicate Fits(st: Stage, st': Stage, acts: seq<Act>) {
    && Sound(st')
    && Past(st') == Past(st) + acts
    && (Unreturned(st) <==> Unreturned(st') || Released in acts)
    && !(Unreturned(st') && Released in acts)
  }

  lemma LogFits(st: Stage, fails: bool)
    requires st.Logging?
    ensures var (st', acts) := Moved(st, LogEnds(fails)); Fits(st, st', acts)
  {
    var log := [Logged(EntryOf(st.e))];
    if st.e.Post? {
      assert Opening(st.e) + (log + Closing(st.e)) == [GaugeUp] + (log + [GaugeDown, Released]);
    } else {
      assert Opening(st.e) + (log + Closing(st.e)) == Opening(st.e) + log;
    }
  }

  lemma QuotaFits(st: Stage, fails: bool)
    requires st.Charging? && Sound(st)
    ensures var (st', acts) := Moved(st, QuotaEnds(fails)); Fits(st, st', acts)
  {
  }

  lemma UsageFits(st: Stage, fails: bool)
    requires st.CountingUse? && Sound(st)
    ensures var (st', acts) := Moved(st, UsageEnds(fails)); Fits(st, st', acts)
  {
  }

  lemma MoveFits(st: Stage, m: Move)
    requires CanMove(st, m) && Sound(st)
    ensures var (st', acts) := Moved(st, m); Fits(st, st', acts)
  {
    match m
    case LogEnds(fails) => LogFits(st, fails);
    case QuotaEnds(fails) => QuotaFits(st, fails);
    case UsageEnds(fails) => UsageFits(st, fails);
    case _ =>
  }

  // ----- invariants -----

  /** Everything done for a request is what its stage stands for; nothing was done for anybody else. */
  ghost predicate TrailLaw(s: Svc) {
    && (forall id | id in s.stage :: Sound(s.stage[id]) && Of(s.trail, id) == Past(s.stage[id]))
    && (forall id: nat | id !in s.stage :: Of(s.trail, id) == [])
  }

  ghost predicate Inv(c: Config, s: Svc) {
    && LimiterInv(s.lim, DjangoCapacity(c.queueSize))
    && QueueFresh(s.lim.sem.waiters, s.stage.Keys, s.next)
    && TrailLaw(s)
    && Permits(s.lim.sem) + |Those(s.stage, Unreturned)| == c.permits
  }

  lemma TrailKept(s: Svc, id: nat, st: Stage, acts: seq<Act>)
    requires TrailLaw(s) && Sound(st)
    requires Past(st) == (if id in s.stage then Past(s.stage[id]) else []) + acts
    ensures TrailLaw(Perform(s, id, st, acts))
  {
    var s' := Perform(s, id, st, acts);
    forall x: nat
      ensures x in s'.stage ==> Sound(s'.stage[x]) && Of(s'.trail, x) == Past(s'.stage[x])
      ensures x !in s'.stage ==> Of(s'.trail, x) == []
    {
      if x == id {
        OfOwn(s.trail, id, acts);
      } else {
        OfOthers(s.trail, id, acts, x);
      }
    }
  }

  /** In use before is in use afterwards or just released. */
  lemma PerformKeeps(c: Config, s: Svc, id: nat, st: Stage, acts: seq<Act>)
    requires LimiterInv(s.lim, DjangoCapacity(c.queueSize)) && TrailLaw(s)
    requires QueueFresh(s.lim.sem.waiters, s.stage.Keys, s.next)
    requires id < s.next && forall w | w in s.lim.sem.waiters :: w.id != id
    requires Sound(st) && Past(st) == (if id in s.stage then Past(s.stage[id]) else []) + acts
    requires Permits(s.lim.sem) + |Those(s.stage, Unreturned)| + (if Unreturned(st) then 1 else 0)
               + (if Released in acts then 1 else 0)
             == c.permits + if id in s.stage && Unreturned(s.stage[id]) then 1 else 0
    ensures Inv(c, Perform(s, id, st, acts))
  {
    var s' := Perform(s, id, st, acts);
    TrailKept(s, id, st, acts);
    EntryChanged(s.stage, id, st, Unreturned);
    if Released in acts {
      StepKeeps(s.lim, Releasing, DjangoCapacity(c.queueSize));
      FreshAfterRelease(s.lim, s.stage.Keys, s.next);
    }
    FreshAfterPerforming(s, id, st, acts);
  }

  lemma FreshAfterPerforming(s: Svc, id: nat, st: Stage, acts: seq<Act>)
    requires SemInv(s.lim.sem) && QueueFresh(s.lim.sem.waiters, s.stage.Keys, s.next)
    requires id < s.next && forall w | w in s.lim.sem.waiters :: w.id != id
    ensures var s' := Perform(s, id, st, acts); QueueFresh(s'.lim.sem.waiters, s'.stage.Keys, s'.next)
  {
    FreshAfterTaking(s.lim.sem.waiters, s.stage.Keys, s.next, id);
    assert s.stage[id := st].Keys == s.stage.Keys + {id};
    if Released in acts {
      FreshAfterRelease(s.lim, s.stage.Keys + {id}, s.next);
    }
  }

  /** The limiter, now lim, has given its answer to a request that is not in the service yet. */
  ghost predicate Answering(c: Config, s: Svc, lim: Limiter, next: nat, id: nat, answer: Answer) {
    && TrailLaw(s) && id < next && id !in s.stage
    && LimiterInv(lim, DjangoCapacity(c.queueSize)) && QueueFresh(lim.sem.waiters, s.stage.Keys, next)
    && (answer != Queued ==> forall w | w in lim.sem.waiters :: w.id != id)
    && Permits(lim.sem) + |Those(s.stage, Unreturned)| + (if answer == Acquired then 1 else 0) == c.permits
  }

  lemma AnsweredKeeps(c: Config, s: Svc, lim: Limiter, next: nat, id: nat, answer: Answer, hasKey: bool, plan: Plan)
    requires Answering(c, s, lim, next, id, answer)
    ensures Inv(c, Answered(s.(lim := lim, next := next), id, answer, hasKey, plan))
  {
    var s' := s.(lim := lim, next := next);
    match answer
    case Acquired =>
      BeginFits(plan, hasKey);
      PerformKeeps(c, s', id, Begin(plan, hasKey).0, Begin(plan, hasKey).1);
    case Rejected => PerformKeeps(c, s', id, Logging(TurnedAway, hasKey), []);
    case GaveUp => PerformKeeps(c, s', id, Logging(TurnedAway, hasKey), []);
    case _ =>
  }

  lemma FittingKeeps(c: Config, s: Svc, id: nat, st: Stage, acts: seq<Act>)
    requires Inv(c, s) && id in s.stage && Fits(s.stage[id], st, acts)
    ensures Inv(c, Perform(s, id, st, acts))
  {
    forall w | w in s.lim.sem.waiters ensures w.id != id {
      var i :| 0 <= i < |s.lim.sem.waiters| && s.lim.sem.waiters[i] == w;
    }
    PerformKeeps(c, s, id, st, acts);
  }

  lemma ArrivalAnswered(c: Config, s: Svc, cap: int)
    requires Inv(c, s) && cap == DjangoCapacity(c.queueSize)
    ensures Answering(c, s, Arrive(s.lim, s.next, cap).0, s.next + 1, s.next, Arrive(s.lim, s.next, cap).1)
  {
    StepKeeps(s.lim, Arrival(s.next), cap);
    FreshAfterArrival(s.lim, s.stage.Keys, s.next, cap);
  }

  lemma ResumptionAnswered(c: Config, s: Svc, id: nat)
    requires Inv(c, s) && Resume(s.lim, id).1 != Ignored
    ensures Answering(c, s, Resume(s.lim, id).0, s.next, id, Resume(s.lim, id).1)
  {
    StepKeeps(s.lim, Resumption(id), DjangoCapacity(c.queueSize));
    FreshAfterLeaving(s.lim, s.stage.Keys, s.next, id);
  }

  lemma {:induction false} DisturbanceKeeps(c: Config, s: Svc, id: nat, why: Interrupt)
    requires Inv(c, s) && why != NoInterrupt
    ensures Inv(c, s.(lim := Disturb(s.lim, id, why)))
  {
    StepKeeps(s.lim, if why == TimedOut then Timeout(id) else Cancel(id), DjangoCapacity(c.queueSize));
    FreshAfterDisturbance(s.lim, s.stage.Keys, s.next, id, why);
  }

  lemma ArrivalKeeps(c: Config, s: Svc, hasKey: bool, plan: Plan)
    requires Inv(c, s)
    ensures Inv(c, Next(c, s, Arrives(hasKey, plan)))
  {
    var (lim, answer) := Arrive(s.lim, s.next, DjangoCapacity(c.queueSize));
    ArrivalAnswered(c, s, DjangoCapacity(c.queueSize));
    AnsweredKeeps(c, s, lim, s.next + 1, s.next, answer, hasKey, plan);
  }

  lemma StepKeepsInv(c: Config, s: Svc, l: Label)
    requires Inv(c, s) && Enabled(s, l)
    ensures Inv(c, Next(c, s, l))
  {
    match l
    case Arrives(hasKey, plan) => ArrivalKeeps(c, s, hasKey, plan);
    case TimesOut(id) => DisturbanceKeeps(c, s, id, TimedOut);
    case IsCancelled(id) => DisturbanceKeeps(c, s, id, TaskCancelled);
    case Resumes(id, hasKey, plan) =>
      ResumptionAnswered(c, s, id);
      AnsweredKeeps(c, s, Resume(s.lim, id).0, s.next, id, Resume(s.lim, id).1, hasKey, plan);
    case Moves(id, m) =>
      MoveFits(s.stage[id], m);
      FittingKeeps(c, s, id, Moved(s.stage[id], m).0, Moved(s.stage[id], m).1);
  }

  lemma {:induction false} EveryRunKeepsInv(c: Config, ls: seq<Label>)
    requires IsRun(c, ls)
    ensures Inv(c, State(c, ls))
  {
    if ls != [] {
      var before := ls[..|ls| - 1];
      EveryRunKeepsInv(c, before);
      StepKeepsInv(c, State(c, before), ls[|ls| - 1]);
    }
  }

  // ----- what every run guarantees -----

  /** Permits free, granted but not taken up, and in use, together with those of responses that could not
      be built and of streams that were never iterated, are the configured number. */
  lemma {:induction false} PermitsAreConserved(c: Config, ls: seq<Label>)
    requires IsRun(c, ls)
    ensures var s := State(c, ls);
      s.lim.sem.value + GrantedCount(s.lim.sem.waiters)
        + |Those(s.stage, Holding)| + |Those(s.stage, Forfeit)| == c.permits
  {
    EveryRunKeepsInv(c, ls);
    KindsAdd(State(c, ls).stage, Holding, Forfeit, Unreturned);
  }

  /** However requests interleave, what has been done for one that has ended is what the service does for
      its script alone, in that order. */
  lemma {:induction false} InterleavingIsInvisible(c: Config, ls: seq<Label>, id: nat)
    requires IsRun(c, ls) && id in State(c, ls).stage && State(c, ls).stage[id].Ended?
    ensures Of(State(c, ls).trail, id) == Acts(State(c, ls).stage[id].script)
  {
    EveryRunKeepsInv(c, ls);
  }

  /** Exactly-once accounting over every run.  For a request that has ended, the permit was released once
      if it had one and its exchange was handled, and otherwise never; the gauge came back down just
      then; one request log was written unless there was nothing to log or writing failed; and quota
      and key usage were charged once exactly when that log named no error, short of a failure of
      their own. */
  lemma {:induction false} ExactlyOnce(c: Config, ls: seq<Label>, id: nat, a: Act)
    requires IsRun(c, ls) && id in State(c, ls).stage && State(c, ls).stage[id].Ended?
    ensures Times(State(c, ls).trail, Deed(id, a)) == Expected(State(c, ls).stage[id].script, a)
  {
    InterleavingIsInvisible(c, ls, id);
    OfCounts(State(c, ls).trail, id, a);
    ActsCounted(State(c, ls).stage[id].script, a);
  }

  // ----- how many successes can be on their way to the quota at once -----

  /** The quota was checked for it, and a success may still be charged. */
  predicate Uncharged(st: Stage) {
    match st
    case Logging(e, _) => EntryOf(e).errorKind == ""
    case Charging(_, _) => true
    case CountingUse(_) => false
    case Ended(_) => false
    case _ => true
  }

  ghost predicate OverlapWithin(c: Config, k: nat) {
    forall ls | IsRun(c, ls) :: |Those(State(c, ls).stage, Uncharged)| <= k
  }

  lemma Extend(c: Config, ls: seq<Label>, l: Label)
    requires IsRun(c, ls) && Enabled(State(c, ls), l)
    ensures IsRun(c, ls + [l]) && State(c, ls + [l]) == Next(c, State(c, ls), l)
  {
    assert (ls + [l])[..|ls|] == ls;
  }

  /** k streams, one after the other, each up to the point where its log has been written. */
  function Pile(k: nat): seq<Label> {
    if k == 0 then [] else PileOn(Pile(k - 1), k - 1)
  }

  function PileOn(ls: seq<Label>, k: nat): seq<Label> {
    ls + [Arrives(false, MakeStream)] + [Moves(k, StreamStarts)] + [Moves(k, StreamEnds(Exhausted))] + [Moves(k, LogEnds(false))]
  }

  /** All permits are free, one of them perhaps used by the latest request. */
  ghost predicate Piled(c: Config, s: Svc, free: nat, k: nat) {
    && s.lim == Limiter(Sem(free, [], c.lib), 0, 0)
    && s.next == k && (forall id | id in s.stage :: id < k)
    && |Those(s.stage, Uncharged)| == k
  }

  lemma PileArrives(c: Config, s: Svc, k: nat)
    requires c.permits > 0 && Piled(c, s, c.permits, k)
    ensures var s' := Next(c, s, Arrives(false, MakeStream));
      Piled(c, s', c.permits - 1, k + 1) && k in s'.stage && s'.stage[k] == StreamMade(false)
  {
    EntryChanged(s.stage, k, StreamMade(false), Uncharged);
  }

  lemma PileMoves(c: Config, s: Svc, k: nat, free: nat, m: Move)
    requires Piled(c, s, free, k + 1) && k in s.stage && CanMove(s.stage[k], m) && Uncharged(s.stage[k])
    requires m.StreamStarts? || m == StreamEnds(Exhausted) || (m == LogEnds(false) && s.stage[k] == Logging(Stream(Exhausted), false))
    ensures var s' := Next(c, s, Moves(k, m));
      Piled(c, s', free + (if m.StreamEnds? then 1 else 0), k + 1)
        && k in s'.stage && s'.stage[k] == Moved(s.stage[k], m).0
  {
    EntryChanged(s.stage, k, Moved(s.stage[k], m).0, Uncharged);
  }

  /** One more stream on the pile has made its next move. */
  lemma PileGoesOn(c: Config, ls: seq<Label>, k: nat, free: nat, st: Stage, m: Move)
    requires IsRun(c, ls) && Piled(c, State(c, ls), free, k + 1)
    requires k in State(c, ls).stage && State(c, ls).stage[k] == st && CanMove(st, m) && Uncharged(st)
    requires m.StreamStarts? || m == StreamEnds(Exhausted) || (m == LogEnds(false) && st == Logging(Stream(Exhausted), false))
    ensures IsRun(c, ls + [Moves(k, m)])
    ensures var s := State(c, ls + [Moves(k, m)]);
      Piled(c, s, free + (if m.StreamEnds? then 1 else 0), k + 1) && k in s.stage && s.stage[k] == Moved(st, m).0
  {
    PileMoves(c, State(c, ls), k, free, m);
    Extend(c, ls, Moves(k, m));
  }

  lemma PileOnce(c: Config, r0: seq<Label>, k: nat)
    requires c.permits > 0 && IsRun(c, r0) && Piled(c, State(c, r0), c.permits, k)
    ensures IsRun(c, PileOn(r0, k)) && Piled(c, State(c, PileOn(r0, k)), c.permits, k + 1)
  {
    var r1 := r0 + [Arrives(false, MakeStream)];
    var r2 := r1 + [Moves(k, StreamStarts)];
    var r3 := r2 + [Moves(k, StreamEnds(Exhausted))];
    PileArrives(c, State(c, r0), k);
    Extend(c, r0, Arrives(false, MakeStream));
    PileGoesOn(c, r1, k, c.permits - 1, StreamMade(false), StreamStarts);
    PileGoesOn(c, r2, k, c.permits - 1, Streaming(false), StreamEnds(Exhausted));
    PileGoesOn(c, r3, k, c.permits, Logging(Stream(Exhausted), false), LogEnds(false));
  }

  lemma {:induction false} PileReaches(c: Config, k: nat)
    requires c.permits > 0
    ensures IsRun(c, Pile(k)) && Piled(c, State(c, Pile(k)), c.permits, k)
  {
    if k > 0 {
      PileReaches(c, k - 1);
      PileOnce(c, Pile(k - 1), k - 1);
    }
  }

  /** Nobody but requests that were turned away. */
  ghost predicate OnlyTurnedAway(s: Svc) {
    forall id | id in s.stage ::
      s.stage[id].Ended? || (s.stage[id].Logging? && s.stage[id].e.TurnedAway?)
  }

  lemma StillTurnedAway(s: Svc, id: nat, answer: Answer, hasKey: bool, plan: Plan)
    requires OnlyTurnedAway(s) && answer != Acquired
    ensures OnlyTurnedAway(Answered(s, id, answer, hasKey, plan))
  {
  }

  lemma TurnedAwayStep(c: Config, s: Svc, l: Label)
    requires Inv(c, s) && Enabled(s, l) && OnlyTurnedAway(s) && c.permits == 0
    ensures OnlyTurnedAway(Next(c, s, l))
  {
    var cap := DjangoCapacity(c.queueSize);
    match l
    case Arrives(hasKey, plan) =>
      ArrivalAnswered(c, s, cap);
      var (lim, answer) := Arrive(s.lim, s.next, cap);
      StillTurnedAway(s.(lim := lim, next := s.next + 1), s.next, answer, hasKey, plan);
    case Resumes(id, hasKey, plan) =>
      ResumptionAnswered(c, s, id);
      var (lim, answer) := Resume(s.lim, id);
      StillTurnedAway(s.(lim := lim, next := s.next), id, answer, hasKey, plan);
    case _ =>
  }

  lemma {:induction false} NoPermitNoService(c: Config, ls: seq<Label>)
    requires IsRun(c, ls) && c.permits == 0
    ensures OnlyTurnedAway(State(c, ls))
  {
    if ls != [] {
      NoPermitNoService(c, ls[..|ls| - 1]);
      EveryRunKeepsInv(c, ls[..|ls| - 1]);
      TurnedAwayStep(c, State(c, ls[..|ls| - 1]), ls[|ls| - 1]);
    }
  }

  predicate PlainUncharged(st: Stage) { Uncharged(st) && Holding(st) && !st.StreamMade? && !st.Streaming? }

  /** Plain exchanges alone are limited by the permits: they are charged before they release. */
  lemma {:induction false} PlainOverlapBounded(c: Config, ls: seq<Label>)
    requires IsRun(c, ls)
    ensures |Those(State(c, ls).stage, PlainUncharged)| <= c.permits
  {
    PermitsAreConserved(c, ls);
    var stage := State(c, ls).stage;
    SubsetFits(Those(stage, PlainUncharged), Those(stage, Holding));
  }

  /** The concurrency limit does not limit how many requests are between the quota's check and its
      charge: a stream gives its permit back before it is charged, so there is a bound only if nobody
      is served at all. */
  lemma {:induction false} OverlapBoundedExactly(c: Config)
    ensures (exists k :: OverlapWithin(c, k)) <==> c.permits == 0
  {
    if c.permits == 0 {
      forall ls | IsRun(c, ls) ensures |Those(State(c, ls).stage, Uncharged)| <= 0 {
        NoPermitNoService(c, ls);
        assert Those(State(c, ls).stage, Uncharged) == {};
      }
      assert OverlapWithin(c, 0);
    } else {
      forall k: nat ensures !OverlapWithin(c, k) {
        PileReaches(c, k + 1);
      }
    }
  }
}
