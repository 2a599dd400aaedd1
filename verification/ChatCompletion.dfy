/** Django's chat completion service, one request at a time: which part of the code owns the permit,
    and what is logged and charged, in what order, for every way the exchange can end.

    A script says what the environment does to one request; Acts is what the service does for it, in
    order.  The class below is the code that does so, and DjangoService lets any number of requests
    do it at the same time. */
module ChatCompletion {

  /** Escapes stands for every exception the service does not classify; for a stream this includes
      connection errors other than a read timeout, which the backend does not translate. */
  datatype PostEnd = Body | PostTimesOut | PostUnavailable | PostHttp(code: nat) | PostEscapes

  datatype StreamEnd = Exhausted | Cancelled | StreamTimesOut | StreamUnavailable | StreamHttp(code: nat)
    | GeneratorClosed | StreamEscapes

  datatype Exchange =
    | TurnedAway
    | BackendNotBuilt
    | ResponseNotBuilt
    | NeverIterated
    | Stream(send: StreamEnd)
    | Post(pend: PostEnd)

  /** What the environment does to one request.  The three failures stand for an exception or a
      cancellation at that point; hasKey says that the request came with an API key. */
  datatype Script = Script(exchange: Exchange, hasKey: bool, logFails: bool, quotaFails: bool, usageFails: bool)

  datatype LogEntry = LogEntry(status: nat, errorKind: string)

  /** What is done on behalf of a request: the activity gauge goes up and down, its permit is released, a
      request log is written, the user's quota is charged and the key's usage is counted. */
  datatype Act = GaugeUp | GaugeDown | Released | Logged(entry: LogEntry) | Charged | KeyUsed

  function StreamErrorKind(end: StreamEnd): string {
    match end
    case Cancelled => "client_disconnected"
    case StreamTimesOut => "upstream_timeout"
    case StreamUnavailable => "upstream_unavailable"
    case StreamHttp(_) => "upstream_http"
    case _ => ""
  }

  /** The exchange comes to the point where its log is written. */
  predicate Loggable(e: Exchange) {
    e.TurnedAway? || e.Stream? || (e.Post? && !e.pend.PostEscapes?)
  }

  function EntryOf(e: Exchange): LogEntry
    requires Loggable(e)
  {
    match e
    case TurnedAway => LogEntry(503, "overloaded")
    case Stream(end) => LogEntry(200, StreamErrorKind(end))
    case Post(end) =>
      match end
      case Body => LogEntry(200, "")
      case PostTimesOut => LogEntry(504, "upstream_timeout")
      case PostUnavailable => LogEntry(502, "upstream_unavailable")
      case PostHttp(code) => LogEntry(code, "upstream_http")
  }

  /** The permit's owner gets to give it back: a built stream must be iterated for that. */
  predicate Handled(e: Exchange) {
    !e.ResponseNotBuilt? && !e.NeverIterated?
  }

  function HookActs(s: Script): seq<Act> {
    if s.quotaFails then []
    else if s.hasKey && !s.usageFails then [Charged, KeyUsed]
    else [Charged]
  }

  function LogActs(s: Script, entry: LogEntry): seq<Act> {
    if s.logFails then []
    else [Logged(entry)] + if entry.errorKind == "" then HookActs(s) else []
  }

  /** After the gauge went up, a plain exchange holds its permit until all is recorded. */
  function PostActs(end: PostEnd, s: Script): seq<Act> {
    (if end.PostEscapes? then [] else LogActs(s, EntryOf(Post(end)))) + [GaugeDown, Released]
  }

  /** A stream gives its permit back before anything is recorded. */
  function StreamActs(end: StreamEnd, s: Script): seq<Act> {
    [GaugeDown, Released] + LogActs(s, EntryOf(Stream(end)))
  }

  function Acts(s: Script): seq<Act> {
    match s.exchange
    case TurnedAway => LogActs(s, EntryOf(TurnedAway))
    case BackendNotBuilt => [Released]
    case ResponseNotBuilt => [GaugeUp]
    case NeverIterated => [GaugeUp]
    case Stream(end) => [GaugeUp] + StreamActs(end, s)
    case Post(end) => [GaugeUp] + PostActs(end, s)
  }

  /** A log is written. */
  predicate LogsIt(s: Script) { Loggable(s.exchange) && !s.logFails }

  /** The quota is charged: a log that names no error was written, and charging does not fail. */
  predicate Charges(s: Script) { LogsIt(s) && EntryOf(s.exchange).errorKind == "" && !s.quotaFails }

  /** How often a script has each act done. */
  function Expected(s: Script, a: Act): nat {
    var e := s.exchange;
    match a
    case GaugeUp => if e.TurnedAway? || e.BackendNotBuilt? then 0 else 1
    case GaugeDown => if e.Stream? || e.Post? then 1 else 0
    case Released => if Handled(e) && !e.TurnedAway? then 1 else 0
    case Logged(entry) => if LogsIt(s) && entry == EntryOf(e) then 1 else 0
    case Charged => if Charges(s) then 1 else 0
    case KeyUsed => if Charges(s) && s.hasKey && !s.usageFails then 1 else 0
  }

  function Count(acts: seq<Act>, a: Act): nat {
    if acts == [] then 0 else Count(acts[1..], a) + if acts[0] == a then 1 else 0
  }

  lemma {:induction false} CountJoined(x: seq<Act>, y: seq<Act>, a: Act)
    ensures Count(x + y, a) == Count(x, a) + Count(y, a)
  {
    if x == [] {
      assert x + y == y;
    } else {
      assert (x + y)[1..] == x[1..] + y;
      CountJoined(x[1..], y, a);
    }
  }

  lemma CountTwo(x: Act, y: Act, a: Act)
    ensures Count([x, y], a) == (if x == a then 1 else 0) + if y == a then 1 else 0
  {
    assert [x, y] == [x] + [y];
    CountJoined([x], [y], a);
  }

  lemma HooksCounted(s: Script, a: Act)
    ensures Count(HookActs(s), a) ==
            (if a == Charged && !s.quotaFails then 1 else 0)
              + if a == KeyUsed && !s.quotaFails && s.hasKey && !s.usageFails then 1 else 0
  {
    CountTwo(Charged, KeyUsed, a);
  }

  lemma LogCounted(s: Script, a: Act)
    requires Loggable(s.exchange)
    ensures Count(LogActs(s, EntryOf(s.exchange)), a) ==
            if a.Logged? || a.Charged? || a.KeyUsed? then Expected(s, a) else 0
  {
    var entry := EntryOf(s.exchange);
    var hooks := if entry.errorKind == "" then HookActs(s) else [];
    HooksCounted(s, a);
    if !s.logFails {
      CountJoined([Logged(entry)], hooks, a);
    }
  }

  lemma StreamCounted(end: StreamEnd, s: Script, a: Act)
    requires s.exchange == Stream(end)
    ensures Count(StreamActs(end, s), a) == Expected(s, a) - if a == GaugeUp then 1 else 0
  {
    LogCounted(s, a);
    CountTwo(GaugeDown, Released, a);
    CountJoined([GaugeDown, Released], LogActs(s, EntryOf(s.exchange)), a);
  }

  lemma PostCounted(end: PostEnd, s: Script, a: Act)
    requires s.exchange == Post(end)
    ensures Count(PostActs(end, s), a) == Expected(s, a) - if a == GaugeUp then 1 else 0
  {
    var log := if end.PostEscapes? then [] else LogActs(s, EntryOf(s.exchange));
    if !end.PostEscapes? {
      LogCounted(s, a);
    }
    CountTwo(GaugeDown, Released, a);
    CountJoined(log, [GaugeDown, Released], a);
  }

  /** However its exchange ends, a script has each act done as often as expected. */
  lemma ActsCounted(s: Script, a: Act)
    ensures Count(Acts(s), a) == Expected(s, a)
  {
    match s.exchange
    case TurnedAway => LogCounted(s, a);
    case Stream(end) =>
      StreamCounted(end, s, a);
      CountJoined([GaugeUp], StreamActs(end, s), a);
    case Post(end) =>
      PostCounted(end, s, a);
      CountJoined([GaugeUp], PostActs(end, s), a);
    case _ =>
  }

  /** A stream is charged as a success not only when the upstream was exhausted but also when the client
      closed it early or an unclassified exception ended it. */
  lemma StreamChargedExactly(end: StreamEnd, hasKey: bool)
    ensures var s := Script(Stream(end), hasKey, false, false, false);
      Count(Acts(s), Charged) == 1 <==> end == Exhausted || end == GeneratorClosed || end == StreamEscapes
  {
    var s := Script(Stream(end), hasKey, false, false, false);
    ActsCounted(s, Charged);
    assert StreamErrorKind(end) == "" <==> end == Exhausted || end == GeneratorClosed || end == StreamEscapes;
  }

  // ----- end by end -----

  function Smooth(e: Exchange, hasKey: bool): Script { Script(e, hasKey, false, false, false) }

  /** The one log of a script is this one. */
  ghost predicate LoggedAs(s: Script, status: nat, errorKind: string) {
    forall entry :: Count(Acts(s), Logged(entry)) == if entry == LogEntry(status, errorKind) then 1 else 0
  }

  ghost predicate NotLogged(s: Script) { forall entry :: Count(Acts(s), Logged(entry)) == 0 }

  lemma LogsCounted(s: Script)
    ensures forall entry :: Count(Acts(s), Logged(entry)) == Expected(s, Logged(entry))
  {
    forall entry ensures Count(Acts(s), Logged(entry)) == Expected(s, Logged(entry)) {
      ActsCounted(s, Logged(entry));
    }
  }

  /** A plain exchange is charged exactly if the upstream's body came, and each of its ends has its own log. */
  lemma PlainEnds(end: PostEnd, hasKey: bool)
    ensures var s := Smooth(Post(end), hasKey);
      && Count(Acts(s), Charged) == (if end == Body then 1 else 0)
      && Count(Acts(s), KeyUsed) == (if end == Body && hasKey then 1 else 0)
      && match end
         case Body => LoggedAs(s, 200, "")
         case PostTimesOut => LoggedAs(s, 504, "upstream_timeout")
         case PostUnavailable => LoggedAs(s, 502, "upstream_unavailable")
         case PostHttp(code) => LoggedAs(s, code, "upstream_http")
         case PostEscapes => NotLogged(s)
  {
    var s := Smooth(Post(end), hasKey);
    ActsCounted(s, Charged);
    ActsCounted(s, KeyUsed);
    LogsCounted(s);
  }

  /** A stream is logged with the status of its headers and the kind of its end, and charged exactly when the log
      names no error. */
  lemma StreamEnds(end: StreamEnd, hasKey: bool)
    ensures var s := Smooth(Stream(end), hasKey);
      && (match end
          case Cancelled => LoggedAs(s, 200, "client_disconnected")
          case StreamTimesOut => LoggedAs(s, 200, "upstream_timeout")
          case StreamUnavailable => LoggedAs(s, 200, "upstream_unavailable")
          case StreamHttp(_) => LoggedAs(s, 200, "upstream_http")
          case Exhausted => LoggedAs(s, 200, "")
          case GeneratorClosed => LoggedAs(s, 200, "")
          case StreamEscapes => LoggedAs(s, 200, ""))
      && Count(Acts(s), Charged) == (if LoggedAs(s, 200, "") then 1 else 0)
      && Count(Acts(s), KeyUsed) == (if LoggedAs(s, 200, "") && hasKey then 1 else 0)
  {
    var s := Smooth(Stream(end), hasKey);
    ActsCounted(s, Charged);
    ActsCounted(s, KeyUsed);
    LogsCounted(s);
    assert Count(Acts(s), Logged(LogEntry(200, StreamErrorKind(end)))) == 1;
  }

  /** Whoever is turned away is logged so, and nothing else is done; whoever got a permit but no exchange is not
      logged, and the permit comes back only if the backend could not be built. */
  lemma OtherEnds(hasKey: bool)
    ensures LoggedAs(Smooth(TurnedAway, hasKey), 503, "overloaded")
    ensures forall a: Act :: !a.Logged? ==> Count(Acts(Smooth(TurnedAway, hasKey)), a) == 0
    ensures forall a: Act :: Count(Acts(Smooth(BackendNotBuilt, hasKey)), a) == if a == Released then 1 else 0
    ensures forall a: Act :: Count(Acts(Smooth(ResponseNotBuilt, hasKey)), a) == if a == GaugeUp then 1 else 0
    ensures forall a: Act :: Count(Acts(Smooth(NeverIterated, hasKey)), a) == if a == GaugeUp then 1 else 0
  {
    LogsCounted(Smooth(TurnedAway, hasKey));
    forall a: Act
      ensures !a.Logged? ==> Count(Acts(Smooth(TurnedAway, hasKey)), a) == 0
      ensures Count(Acts(Smooth(BackendNotBuilt, hasKey)), a) == if a == Released then 1 else 0
      ensures Count(Acts(Smooth(ResponseNotBuilt, hasKey)), a) == if a == GaugeUp then 1 else 0
      ensures Count(Acts(Smooth(NeverIterated, hasKey)), a) == if a == GaugeUp then 1 else 0
    {
      ActsCounted(Smooth(TurnedAway, hasKey), a);
      ActsCounted(Smooth(BackendNotBuilt, hasKey), a);
      ActsCounted(Smooth(ResponseNotBuilt, hasKey), a);
      ActsCounted(Smooth(NeverIterated, hasKey), a);
    }
  }

  /** A failure while recording loses what it was about and what would have followed, and nothing else: the log
      and the charges, the charges, or the key's usage. */
  lemma FailuresLose(s: Script, a: Act)
    ensures Count(Acts(s), a) ==
      if s.logFails && (a.Logged? || a.Charged? || a.KeyUsed?) then 0
      else if s.quotaFails && (a.Charged? || a.KeyUsed?) then 0
      else if s.usageFails && a.KeyUsed? then 0
      else Count(Acts(Smooth(s.exchange, s.hasKey)), a)
  {
    ActsCounted(s, a);
    ActsCounted(Smooth(s.exchange, s.hasKey), a);
  }

  lemma NotReleasedIn(s: Script, entry: LogEntry, i: nat)
    requires i < |LogActs(s, entry)|
    ensures LogActs(s, entry)[i] != Released
  {
  }

  /** A plain exchange gives its permit back after everything else, a stream before anything is recorded. */
  lemma ReleaseOrder(s: Script, i: nat)
    requires i < |Acts(s)| && Acts(s)[i] == Released
    ensures s.exchange.Post? ==> i == |Acts(s)| - 1
    ensures s.exchange.Stream? ==> i == 2
  {
    match s.exchange
    case Post(end) =>
      var log := if end.PostEscapes? then [] else LogActs(s, EntryOf(Post(end)));
      assert Acts(s) == [GaugeUp] + (log + [GaugeDown, Released]);
      if 1 <= i < 1 + |log| {
        NotReleasedIn(s, EntryOf(Post(end)), i - 1);
      }
    case Stream(end) =>
      assert Acts(s) == [GaugeUp] + ([GaugeDown, Released] + LogActs(s, EntryOf(Stream(end))));
      if i >= 3 {
        NotReleasedIn(s, EntryOf(Stream(end)), i - 3);
      }
    case _ =>
  }

  function Rank(a: Act): nat {
    match a
    case Logged(_) => 1
    case Charged => 2
    case KeyUsed => 3
    case _ => 0
  }

  /** What is recorded comes in order. */
  ghost predicate InOrder(acts: seq<Act>) {
    forall i, j | 0 <= i < j < |acts| && Rank(acts[i]) > 0 && Rank(acts[j]) > 0 :: Rank(acts[i]) < Rank(acts[j])
  }

  lemma OrderJoined(x: seq<Act>, y: seq<Act>)
    requires InOrder(x) && InOrder(y)
    requires (forall a | a in x :: Rank(a) == 0) || (forall a | a in y :: Rank(a) == 0)
    ensures InOrder(x + y)
  {
    var all := x + y;
    forall i, j | 0 <= i < j < |all| && Rank(all[i]) > 0 && Rank(all[j]) > 0 ensures Rank(all[i]) < Rank(all[j]) {
      assert i < |x| ==> all[i] in x;
      assert j >= |x| ==> all[j] in y;
    }
  }

  lemma LogInOrder(s: Script, entry: LogEntry)
    ensures InOrder(LogActs(s, entry))
  {
  }

  /** The log is written before the quota is charged, and the quota is charged before the key's usage is counted. */
  lemma RecordOrder(s: Script)
    ensures InOrder(Acts(s))
  {
    if Loggable(s.exchange) {
      LogInOrder(s, EntryOf(s.exchange));
    }
    match s.exchange
    case Stream(end) =>
      OrderJoined([GaugeDown, Released], LogActs(s, EntryOf(Stream(end))));
      OrderJoined([GaugeUp], StreamActs(end, s));
    case Post(end) =>
      OrderJoined(if end.PostEscapes? then [] else LogActs(s, EntryOf(Post(end))), [GaugeDown, Released]);
      OrderJoined([GaugeUp], PostActs(end, s));
    case _ =>
  }

  /** What a sequence of acts leaves behind: the gauge, the permits released, the logs and the charges. */
  datatype Ledger = Ledger(active: int, released: nat, logs: seq<LogEntry>, quota: nat, usage: nat)

  function Entered(l: Ledger, a: Act): Ledger {
    match a
    case GaugeUp => l.(active := l.active + 1)
    case GaugeDown => l.(active := l.active - 1)
    case Released => l.(released := l.released + 1)
    case Logged(entry) => l.(logs := l.logs + [entry])
    case Charged => l.(quota := l.quota + 1)
    case KeyUsed => l.(usage := l.usage + 1)
  }

  function Booked(l: Ledger, acts: seq<Act>): Ledger
    decreases |acts|
  {
    if acts == [] then l else Booked(Entered(l, acts[0]), acts[1..])
  }

  lemma {:induction false} BookedInParts(l: Ledger, a: seq<Act>, b: seq<Act>)
    ensures Booked(l, a + b) == Booked(Booked(l, a), b)
    decreases |a|
  {
    if a == [] {
      assert a + b == b;
    } else {
      assert (a + b)[1..] == a[1..] + b;
      BookedInParts(Entered(l, a[0]), a[1..], b);
    }
  }

  lemma BookedFirst(l: Ledger, a: Act, rest: seq<Act>)
    ensures Booked(l, [a] + rest) == Booked(Entered(l, a), rest)
  {
    assert ([a] + rest)[1..] == rest;
  }

  lemma BookedLeaving(l: Ledger)
    ensures Booked(l, [GaugeDown, Released]) == Entered(Entered(l, GaugeDown), Released)
  {
    BookedFirst(l, GaugeDown, [Released]);
    assert [GaugeDown, Released] == [GaugeDown] + [Released];
  }

  lemma BookedLog(l: Ledger, s: Script, entry: LogEntry)
    ensures Booked(l, LogActs(s, entry)) ==
            if s.logFails then l
            else if entry.errorKind == "" then Booked(Entered(l, Logged(entry)), HookActs(s))
            else Entered(l, Logged(entry))
  {
    if !s.logFails {
      BookedFirst(l, Logged(entry), if entry.errorKind == "" then HookActs(s) else []);
    }
  }

  lemma BookedHooks(l: Ledger, s: Script)
    ensures Booked(l, HookActs(s)) ==
            if s.quotaFails then l
            else if s.hasKey && !s.usageFails then Entered(Entered(l, Charged), KeyUsed)
            else Entered(l, Charged)
  {
    if !s.quotaFails && s.hasKey && !s.usageFails {
      BookedFirst(l, Charged, [KeyUsed]);
      assert [Charged, KeyUsed] == [Charged] + [KeyUsed];
    }
  }

  // ----- the code -----

  class ChatCompletionService {
    var ledger: Ledger

    constructor ()
      ensures ledger == Ledger(0, 0, [], 0, 0)
    {
      ledger := Ledger(0, 0, [], 0, 0);
    }

    method ReleaseSlot()
      modifies this
      ensures ledger == Entered(old(ledger), Released)
    {
      ledger := ledger.(released := ledger.released + 1);
    }

    method PersistLog(status: nat, errorKind: string, fails: bool) returns (raised: bool)
      modifies this
      ensures raised == fails
      ensures ledger == if fails then old(ledger) else Entered(old(ledger), Logged(LogEntry(status, errorKind)))
    {
      if fails {
        return true;
      }
      ledger := ledger.(logs := ledger.logs + [LogEntry(status, errorKind)]);
      return false;
    }

    method PostSuccessHooks(s: Script) returns (raised: bool)
      modifies this
      ensures ledger == Booked(old(ledger), HookActs(s))
    {
      BookedHooks(ledger, s);
      if s.quotaFails {
        return true;
      }
      ledger := ledger.(quota := ledger.quota + 1);
      if s.hasKey {
        if s.usageFails {
          return true;
        }
        ledger := ledger.(usage := ledger.usage + 1);
      }
      return false;
    }

    /** handle() from the limiter's answer on. */
    method Handle(s: Script) returns (raised: bool)
      modifies this
      ensures ledger == Booked(old(ledger), Acts(s))
    {
      if s.exchange.TurnedAway? {
        BookedLog(ledger, s, LogEntry(503, "overloaded"));
        raised := PersistLog(503, "overloaded", s.logFails);
        return;
      }
      var acquired := true;
      raised := s.exchange.BackendNotBuilt?;
      if !raised {
        ledger := ledger.(active := ledger.active + 1);
        BookedFirst(old(ledger), GaugeUp, Acts(s)[1..]);
        acquired := false;
        match s.exchange {
          case Stream(end) => StreamSse(end, s);
          case Post(end) => raised := Nonstreaming(end, s);
          case ResponseNotBuilt => raised := true;
          case NeverIterated =>
        }
      }
      if acquired {
        ReleaseSlot();
      }
    }

    method Nonstreaming(end: PostEnd, s: Script) returns (raised: bool)
      modifies this
      ensures ledger == Booked(old(ledger), PostActs(end, s))
    {
      ghost var recorded := if end.PostEscapes? then [] else LogActs(s, EntryOf(Post(end)));
      if !end.PostEscapes? {
        BookedLog(ledger, s, EntryOf(Post(end)));
      }
      raised := false;
      match end {
        case Body =>
          raised := PersistLog(200, "", s.logFails);
          if !raised {
            raised := PostSuccessHooks(s);
          }
        case PostTimesOut => raised := PersistLog(504, "upstream_timeout", s.logFails);
        case PostUnavailable => raised := PersistLog(502, "upstream_unavailable", s.logFails);
        case PostHttp(code) => raised := PersistLog(code, "upstream_http", s.logFails);
        case PostEscapes => raised := true;
      }
      assert ledger == Booked(old(ledger), recorded);
      BookedLeaving(ledger);
      BookedInParts(old(ledger), recorded, [GaugeDown, Released]);
      ledger := ledger.(active := ledger.active - 1);
      ReleaseSlot();
    }

    /** The generator, once iterated. */
    method StreamSse(end: StreamEnd, s: Script)
      modifies this
      ensures ledger == Booked(old(ledger), StreamActs(end, s))
    {
      var errorKind, timedOut := "", false;
      match end {
        case Cancelled => errorKind := "client_disconnected";
        case StreamTimesOut => errorKind, timedOut := "upstream_timeout", true;
        case StreamUnavailable => errorKind := "upstream_unavailable";
        case StreamHttp(_) => errorKind := "upstream_http";
        case _ =>
      }
      BookedLeaving(ledger);
      BookedInParts(ledger, [GaugeDown, Released], LogActs(s, EntryOf(Stream(end))));
      ledger := ledger.(active := ledger.active - 1);
      ReleaseSlot();
      BookedLog(ledger, s, LogEntry(200, errorKind));
      var raised := PersistLog(200, errorKind, s.logFails);
      if !raised && errorKind == "" && !timedOut {
        var _ := PostSuccessHooks(s);
      }
    }
  }
}
