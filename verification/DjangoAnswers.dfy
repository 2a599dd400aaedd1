/** What becomes of a request of Django's service after the limiter's answer: those turned away are logged so, and
    those served can come to every end there is. */
module DjangoAnswers {
  import opened Admission
  import opened AdmissionAnswers
  import opened ChatCompletion
  import opened DjangoService

  /** The label is the answer to this request, and the answer is this. */
  ghost predicate AnswerIs(c: Config, s: Svc, l: Label, id: nat, answer: Answer) {
    match l
    case Arrives(_, _) => id == s.next && answer == Arrive(s.lim, s.next, DjangoCapacity(c.queueSize)).1
    case Resumes(x, _, _) => id == x && answer == Resume(s.lim, x).1
    case _ => false
  }

  lemma TurnedAwayBegins(c: Config, ls: seq<Label>, l: Label, id: nat, answer: Answer)
    requires IsRun(c, ls) && Enabled(State(c, ls), l) && AnswerIs(c, State(c, ls), l, id, answer)
    requires answer == Rejected || answer == GaveUp
    ensures IsRun(c, ls + [l]) && id in State(c, ls + [l]).stage
    ensures State(c, ls + [l]).stage[id].Logging? && State(c, ls + [l]).stage[id].e == TurnedAway
  {
    Extend(c, ls, l);
  }

  lemma LogsTurnedAway(c: Config, ls: seq<Label>, id: nat, fails: bool)
    requires IsRun(c, ls) && id in State(c, ls).stage && State(c, ls).stage[id].Logging? && State(c, ls).stage[id].e == TurnedAway
    ensures var after := ls + [Moves(id, LogEnds(fails))];
      && IsRun(c, after) && id in State(c, after).stage
      && State(c, after).stage[id] == Ended(Undisturbed(TurnedAway, State(c, ls).stage[id].hasKey).(logFails := fails))
  {
    Extend(c, ls, Moves(id, LogEnds(fails)));
  }

  /** A request that is refused on arrival, or whose timeout in the queue has expired, is logged once as overloaded,
      unless writing the log fails; nothing else is done for it. */
  lemma TurnedAwayIsLogged(c: Config, ls: seq<Label>, l: Label, id: nat, answer: Answer, fails: bool, a: Act)
    requires IsRun(c, ls) && Enabled(State(c, ls), l) && AnswerIs(c, State(c, ls), l, id, answer)
    requires answer == Rejected || answer == GaveUp
    ensures var after := ls + [l] + [Moves(id, LogEnds(fails))];
      && IsRun(c, after)
      && id in State(c, after).stage && State(c, after).stage[id].Ended?
      && State(c, after).stage[id].script.exchange == TurnedAway
      && Times(State(c, after).trail, Deed(id, a)) == if !fails && a == Logged(LogEntry(503, "overloaded")) then 1 else 0
  {
    TurnedAwayBegins(c, ls, l, id, answer);
    LogsTurnedAway(c, ls + [l], id, fails);
    ExactlyOnce(c, ls + [l] + [Moves(id, LogEnds(fails))], id, a);
  }

  /** A request whose task is cancelled in the queue, or that has to queue, is not in the service; one that gets its
      permit is. */
  lemma ServedExactly(c: Config, ls: seq<Label>, l: Label, id: nat, answer: Answer)
    requires IsRun(c, ls) && Enabled(State(c, ls), l) && AnswerIs(c, State(c, ls), l, id, answer)
    ensures id !in State(c, ls).stage
    ensures id in Next(c, State(c, ls), l).stage <==> answer != Queued && answer != Raised
  {
    var s := State(c, ls);
    EveryRunKeepsInv(c, ls);
    match l
    case Arrives(_, _) =>
    case Resumes(x, _, _) => FreshAfterLeaving(s.lim, s.stage.Keys, s.next, x);
  }

  /** A queued request whose timeout expires gives up when it runs, unless its task is cancelled, before or after;
      then it raises. */
  lemma QueuedThenAnswered(c: Config, ls: seq<Label>, id: nat)
    requires IsRun(c, ls) && InQueue(State(c, ls).lim, id)
    ensures var after := ls + [TimesOut(id)];
      && IsRun(c, after)
      && Resume(State(c, after).lim, id).1 == if WaiterOf(State(c, ls).lim, id).intr == TaskCancelled then Raised else GaveUp
    ensures var after := ls + [IsCancelled(id)];
      IsRun(c, after) && Resume(State(c, after).lim, id).1 == Raised
  {
    EveryRunKeepsInv(c, ls);
    DisturbedExactly(State(c, ls).lim, id, TimedOut);
    DisturbedExactly(State(c, ls).lim, id, TaskCancelled);
    Extend(c, ls, TimesOut(id));
    Extend(c, ls, IsCancelled(id));
  }

  // ----- every script can be played -----

  function PlanOf(e: Exchange): Plan {
    match e
    case BackendNotBuilt => NoBackend
    case ResponseNotBuilt => NoResponse
    case Post(_) => MakePost
    case _ => MakeStream
  }

  function Recording(s: Script): seq<Move> {
    [LogEnds(s.logFails)] +
    if !LogsIt(s) || EntryOf(s.exchange).errorKind != "" then []
    else [QuotaEnds(s.quotaFails)] + if s.quotaFails || !s.hasKey then [] else [UsageEnds(s.usageFails)]
  }

  /** The moves a script consists of once the permit is there. */
  function MovesOf(s: Script): seq<Move> {
    match s.exchange
    case NeverIterated => [StreamDropped]
    case Stream(end) => [StreamStarts, StreamEnds(end)] + Recording(s)
    case Post(end) => [PostEnds(end)] + if end.PostEscapes? then [] else Recording(s)
    case _ => []
  }

  /** Failures that cannot come up any more are left out. */
  function Trimmed(s: Script): Script {
    Script(s.exchange, s.hasKey,
           s.logFails && Loggable(s.exchange),
           s.quotaFails && LogsIt(s) && EntryOf(s.exchange).errorKind == "",
           s.usageFails && Charges(s) && s.hasKey)
  }

  ghost predicate CanPlay(st: Stage, ms: seq<Move>)
    decreases |ms|
  {
    ms == [] || (CanMove(st, ms[0]) && CanPlay(Moved(st, ms[0]).0, ms[1..]))
  }

  ghost function Played(st: Stage, ms: seq<Move>): Stage
    requires CanPlay(st, ms)
    decreases |ms|
  {
    if ms == [] then st else Played(Moved(st, ms[0]).0, ms[1..])
  }

  lemma PlayFirst(st: Stage, m: Move, ms: seq<Move>)
    requires CanMove(st, m) && CanPlay(Moved(st, m).0, ms)
    ensures CanPlay(st, [m] + ms) && Played(st, [m] + ms) == Played(Moved(st, m).0, ms)
  {
    assert ([m] + ms)[1..] == ms;
  }

  lemma PlayOne(st: Stage, m: Move)
    requires CanMove(st, m)
    ensures CanPlay(st, [m]) && Played(st, [m]) == Moved(st, m).0
  {
    PlayFirst(st, m, []);
    assert [m] + [] == [m];
  }

  lemma PlayCharges(s: Script)
    requires LogsIt(s) && EntryOf(s.exchange).errorKind == "" && !s.exchange.TurnedAway?
    ensures var ms := [QuotaEnds(s.quotaFails)] + if s.quotaFails || !s.hasKey then [] else [UsageEnds(s.usageFails)];
      CanPlay(Charging(s.exchange, s.hasKey), ms) && Played(Charging(s.exchange, s.hasKey), ms) == Ended(Trimmed(s))
  {
    var st := Charging(s.exchange, s.hasKey);
    if s.quotaFails || !s.hasKey {
      PlayFirst(st, QuotaEnds(s.quotaFails), []);
    } else {
      PlayOne(CountingUse(s.exchange), UsageEnds(s.usageFails));
      PlayFirst(st, QuotaEnds(false), [UsageEnds(s.usageFails)]);
    }
  }

  lemma PlayRecording(s: Script)
    requires Loggable(s.exchange) && !s.exchange.TurnedAway?
    ensures CanPlay(Logging(s.exchange, s.hasKey), Recording(s))
    ensures Played(Logging(s.exchange, s.hasKey), Recording(s)) == Ended(Trimmed(s))
  {
    var st := Logging(s.exchange, s.hasKey);
    if LogsIt(s) && EntryOf(s.exchange).errorKind == "" {
      PlayCharges(s);
      PlayFirst(st, LogEnds(false), [QuotaEnds(s.quotaFails)] + if s.quotaFails || !s.hasKey then [] else [UsageEnds(s.usageFails)]);
    } else {
      PlayFirst(st, LogEnds(s.logFails), []);
    }
  }

  lemma PlayScript(s: Script)
    requires !s.exchange.TurnedAway?
    ensures var st := Begin(PlanOf(s.exchange), s.hasKey).0; CanPlay(st, MovesOf(s)) && Played(st, MovesOf(s)) == Ended(Trimmed(s))
  {
    match s.exchange
    case Stream(end) =>
      PlayRecording(s);
      PlayFirst(Streaming(s.hasKey), StreamEnds(end), Recording(s));
      PlayFirst(StreamMade(s.hasKey), StreamStarts, [StreamEnds(end)] + Recording(s));
      assert [StreamStarts] + ([StreamEnds(end)] + Recording(s)) == MovesOf(s);
    case Post(end) =>
      if end.PostEscapes? {
        PlayFirst(Posting(s.hasKey), PostEnds(end), []);
      } else {
        PlayRecording(s);
        PlayFirst(Posting(s.hasKey), PostEnds(end), Recording(s));
      }
    case NeverIterated => PlayOne(StreamMade(s.hasKey), StreamDropped);
    case BackendNotBuilt =>
    case ResponseNotBuilt =>
  }

  function Labelled(id: nat, ms: seq<Move>): seq<Label> {
    if ms == [] then [] else Labelled(id, ms[..|ms| - 1]) + [Moves(id, ms[|ms| - 1])]
  }

  lemma {:induction false} PlaySplits(st: Stage, ms: seq<Move>, m: Move)
    requires CanPlay(st, ms + [m])
    ensures CanPlay(st, ms) && CanMove(Played(st, ms), m) && Played(st, ms + [m]) == Moved(Played(st, ms), m).0
    decreases |ms|
  {
    if ms == [] {
      assert ms + [m] == [m];
    } else {
      assert (ms + [m])[0] == ms[0] && (ms + [m])[1..] == ms[1..] + [m];
      PlaySplits(Moved(st, ms[0]).0, ms[1..], m);
    }
  }

  /** The run goes on from ls with some moves of one request, and leaves it at this stage. */
  ghost predicate PlayedTo(c: Config, ls: seq<Label>, id: nat, ms: seq<Move>, st: Stage) {
    var after := ls + Labelled(id, ms);
    IsRun(c, after) && id in State(c, after).stage && State(c, after).stage[id] == st
  }

  lemma PlayedOneMore(c: Config, ls: seq<Label>, id: nat, ms: seq<Move>, st: Stage, m: Move)
    requires PlayedTo(c, ls, id, ms, st) && CanMove(st, m)
    ensures PlayedTo(c, ls, id, ms + [m], Moved(st, m).0)
  {
    var was := ls + Labelled(id, ms);
    Extend(c, was, Moves(id, m));
    assert (ms + [m])[..|ms|] == ms;
    assert ls + Labelled(id, ms + [m]) == was + [Moves(id, m)];
  }

  /** Moves of one request can be made in any state in which it stands where they begin. */
  lemma {:induction false} PlayedInRun(c: Config, ls: seq<Label>, id: nat, ms: seq<Move>, st: Stage)
    requires IsRun(c, ls) && id in State(c, ls).stage && State(c, ls).stage[id] == st && CanPlay(st, ms)
    ensures PlayedTo(c, ls, id, ms, Played(st, ms))
    decreases |ms|
  {
    if ms == [] {
      assert ls + Labelled(id, ms) == ls;
    } else {
      var before, m := ms[..|ms| - 1], ms[|ms| - 1];
      assert before + [m] == ms;
      PlaySplits(st, before, m);
      PlayedInRun(c, ls, id, before, st);
      PlayedOneMore(c, ls, id, before, Played(st, before), m);
    }
  }

  lemma ServedBegins(c: Config, ls: seq<Label>, l: Label, id: nat, hasKey: bool, plan: Plan)
    requires IsRun(c, ls) && Enabled(State(c, ls), l) && AnswerIs(c, State(c, ls), l, id, Acquired)
    requires l == Arrives(hasKey, plan) || l == Resumes(id, hasKey, plan)
    ensures IsRun(c, ls + [l]) && id in State(c, ls + [l]).stage && State(c, ls + [l]).stage[id] == Begin(plan, hasKey).0
  {
    Extend(c, ls, l);
  }

  /** Whoever gets a permit, at once or from the queue, can come to every end, with every failure on the way: the
      moves of its script lead there, whatever other requests are doing. */
  lemma EveryScriptHappens(c: Config, ls: seq<Label>, l: Label, id: nat, script: Script)
    requires IsRun(c, ls) && Enabled(State(c, ls), l) && AnswerIs(c, State(c, ls), l, id, Acquired)
    requires !script.exchange.TurnedAway?
    requires l == Arrives(script.hasKey, PlanOf(script.exchange)) || l == Resumes(id, script.hasKey, PlanOf(script.exchange))
    ensures var after := ls + [l] + Labelled(id, MovesOf(script));
      IsRun(c, after) && id in State(c, after).stage && State(c, after).stage[id] == Ended(Trimmed(script))
  {
    ServedBegins(c, ls, l, id, script.hasKey, PlanOf(script.exchange));
    PlayScript(script);
    PlayedInRun(c, ls + [l], id, MovesOf(script), Begin(PlanOf(script.exchange), script.hasKey).0);
  }
}
