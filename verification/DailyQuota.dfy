/** The daily request quota of a user: a check before the work and a record after it.  Each reads the clock
    first and asks the cache some time later.  The record is two calls on the cache, an increment and, if
    that finds no counter, an addition that does nothing if a counter has appeared meanwhile.  The cache
    forgets a counter at about the next UTC midnight.

    Times are in microseconds.  The state is what the cache holds for one user with a request limit,
    where each request stands, and (history) the successes recorded per day. */
module DailyQuota {
  import opened Tally

  const SECOND: nat := 1_000_000
  const DAY: nat := 86_400 * SECOND

  datatype Counter = Counter(n: nat, expires: int)

  /** A request has read the clock for its check; was admitted; has read the clock for its record; has found
      no counter.  What it asks the cache for is the counter of the day on which it read the clock. */
  datatype Stage = Checking(stamp: int) | Working | Recording(stamp: int) | Missed(stamp: int)

  /** The successes recorded to a day: until its first counter expired, since then, not seen by its current
      counter, and in or after its last second. */
  datatype Log = Log(first: nat, again: nat, lost: nat, late: nat)

  datatype State = State(cache: map<int, Counter>, stage: map<nat, Stage>, next: nat, now: int, log: map<int, Log>)

  /** limit: the user's daily requests.  overlap: how many requests can be between the start of their check and
      the end of their record at once. */
  datatype Config = Config(limit: int, overlap: nat)

  datatype Event =
    | Start(at: int)
    | Check(id: nat, at: int)
    | Abandon(id: nat, at: int)
    | Finish(id: nat, at: int)
    | Incr(id: nat, at: int)
    | Add(id: nat, at: int)

  function Day(now: int): int { now / DAY }

  function DayEnd(d: int): int { (d + 1) * DAY }

  function Max(a: int, b: int): int { if a < b then b else a }

  function Min(a: int, b: int): int { if a < b then a else b }

  /** Whole seconds to the next day, at least sixty. */
  function Ttl(now: int): int { Max(60, (DayEnd(Day(now)) - now) / SECOND) }

  predicate Live(cache: map<int, Counter>, d: int, now: int) { d in cache && now < cache[d].expires }

  function Used(cache: map<int, Counter>, d: int, now: int): nat {
    if Live(cache, d, now) then cache[d].n else 0
  }

  /** cache.incr on a counter that is there. */
  function Incremented(cache: map<int, Counter>, d: int): map<int, Counter>
    requires d in cache
  {
    cache[d := cache[d].(n := cache[d].n + 1)]
  }

  /** cache.add, with the time to live computed when the record began. */
  function Added(cache: map<int, Counter>, stamp: int, now: int): map<int, Counter> {
    if Live(cache, Day(stamp), now) then cache
    else cache[Day(stamp) := Counter(1, now + Ttl(stamp) * SECOND)]
  }

  // ----- runs -----

  function LogOf(s: State, d: int): Log { if d in s.log then s.log[d] else Log(0, 0, 0, 0) }

  /** The first counter of a day has expired. */
  predicate Over(has: bool, k: Counter, l: Log, now: int) {
    l.again > 0 || (has && k.expires <= now)
  }

  function CounterOf(cache: map<int, Counter>, d: int): Counter { if d in cache then cache[d] else Counter(0, 0) }

  predicate Late(d: int, now: int) { now > DayEnd(d) - SECOND }

  /** One more success; lost says how many the counter has missed by now. */
  function Success(l: Log, over: bool, late: bool, lost: nat): Log {
    Log(if over then l.first else l.first + 1,
        if over then l.again + 1 else l.again,
        lost,
        if late then l.late + 1 else l.late)
  }

  function LogSuccess(s: State, d: int, now: int, lost: nat): map<int, Log> {
    s.log[d := Success(LogOf(s, d), Over(d in s.cache, CounterOf(s.cache, d), LogOf(s, d), now), Late(d, now), lost)]
  }

  predicate Enabled(c: Config, s: State, e: Event) {
    s.now <= e.at && match e
                     case Start(_) => |s.stage.Keys| < c.overlap
                     case Check(id, _) => id in s.stage && s.stage[id].Checking?
                     case Abandon(id, _) => id in s.stage
                     case Finish(id, _) => id in s.stage && s.stage[id].Working?
                     case Incr(id, _) => id in s.stage && s.stage[id].Recording?
                     case Add(id, _) => id in s.stage && s.stage[id].Missed?
  }

  function Next(c: Config, s: State, e: Event): State
    requires Enabled(c, s, e)
  {
    var t := s.(now := e.at);
    match e
    case Start(at) => t.(stage := s.stage[s.next := Checking(at)], next := s.next + 1)
    case Check(id, at) =>
      t.(stage := if Used(s.cache, Day(s.stage[id].stamp), at) < c.limit then s.stage[id := Working] else s.stage - {id})
    case Abandon(id, _) => t.(stage := s.stage - {id})
    case Finish(id, at) => t.(stage := s.stage[id := Recording(at)])
    case Incr(id, at) =>
      var d := Day(s.stage[id].stamp);
      if Live(s.cache, d, at) then
        t.(stage := s.stage - {id}, cache := Incremented(s.cache, d), log := LogSuccess(s, d, at, LogOf(s, d).lost))
      else t.(stage := s.stage[id := Missed(s.stage[id].stamp)])
    case Add(id, at) =>
      var d := Day(s.stage[id].stamp);
      t.(stage := s.stage - {id},
         cache := Added(s.cache, s.stage[id].stamp, at),
         log := LogSuccess(s, d, at, if Live(s.cache, d, at) then LogOf(s, d).lost + 1 else 0))
  }

  function Initial(): State { State(map[], map[], 0, 0, map[]) }

  predicate IsRun(c: Config, es: seq<Event>)
    decreases |es|, 0
  {
    es == [] || (IsRun(c, es[..|es| - 1]) && Enabled(c, After(c, es[..|es| - 1]), es[|es| - 1]))
  }

  function After(c: Config, es: seq<Event>): State
    requires IsRun(c, es)
    decreases |es|, 1
  {
    if es == [] then Initial() else Next(c, After(c, es[..|es| - 1]), es[|es| - 1])
  }

  function Recorded(s: State, d: int): nat { LogOf(s, d).first + LogOf(s, d).again }

  /** What check and record allow at most in the life of one counter: all requests in flight when the limit
      is about to be reached and, if it is not reached by the first success alone, those whose
      additions came after the one that opened the counter. */
  function Bound(c: Config): nat {
    if c.limit <= 0 || c.overlap == 0 then 0
    else c.limit - 1 + c.overlap + if c.limit >= 2 then c.overlap - 1 else 0
  }

  // ----- one day -----

  /** What holds of one day: its counter if it has one, its log, how many requests have missed its counter,
      and how many may still be recorded to it. */
  ghost predicate DayOk(c: Config, d: int, has: bool, k: Counter, l: Log, missed: nat, possible: nat, now: int, today: int) {
    var over := Over(has, k, l, now);
    && missed <= possible <= c.overlap && (possible > 0 ==> c.limit > 0)
    && (!has ==> l == Log(0, 0, 0, 0))
    && (has ==> d <= today && k.n >= 1 && k.expires > DayEnd(d) - SECOND)
    && (has && l.again == 0 ==> l.first == k.n + l.lost)
    && (has && l.again > 0 && d == today ==> l.again == k.n + l.lost && k.expires > DayEnd(d))
    && (has && now < k.expires ==> l.lost + missed + 1 <= c.overlap)
    && (l.again > 0 ==> Late(d, now))
    && l.again <= l.late
    && l.first <= Bound(c)
    && (if over then l.again else l.first) + possible <= Bound(c)
  }

  predicate Clock(now: int, today: int) { today * DAY <= now < DayEnd(today) }

  /** Time goes on.  When a day begins, whoever is under way may be recorded to it; when it ends, only who has
      read the clock still can. */
  lemma TimePasses(c: Config, d: int, has: bool, k: Counter, l: Log, missed: nat, possible: nat,
                   now: int, today: int, now': int, today': int, possible': nat)
    requires DayOk(c, d, has, k, l, missed, possible, now, today)
    requires Clock(now, today) && Clock(now', today') && now <= now'
    requires missed <= possible' <= c.overlap && (possible' > 0 ==> c.limit > 0)
    requires d == today' > today || possible' <= possible
    ensures DayOk(c, d, has, k, l, missed, possible', now', today')
  {
  }

  lemma OneMorePossible(c: Config, d: int, has: bool, k: Counter, l: Log, missed: nat, possible: nat, now: int)
    requires DayOk(c, d, has, k, l, missed, possible, now, d) && Clock(now, d)
    requires possible < c.overlap && c.limit > 0 && (has && now < k.expires ==> k.n < c.limit)
    ensures DayOk(c, d, has, k, l, missed, possible + 1, now, d)
  {
  }

  lemma FewerPossible(c: Config, d: int, has: bool, k: Counter, l: Log, missed: nat, possible: nat, now: int, today: int,
                      missed': nat, possible': nat)
    requires DayOk(c, d, has, k, l, missed, possible, now, today)
    requires missed' <= missed && missed' <= possible' <= possible
    ensures DayOk(c, d, has, k, l, missed', possible', now, today)
  {
  }

  lemma CountedOne(c: Config, d: int, k: Counter, l: Log, missed: nat, possible: nat, now: int, today: int)
    requires DayOk(c, d, true, k, l, missed, possible, now, today) && Clock(now, today)
    requires now < k.expires && missed < possible
    ensures DayOk(c, d, true, k.(n := k.n + 1), Success(l, Over(true, k, l, now), Late(d, now), l.lost),
                  missed, possible - 1, now, today)
  {
  }

  lemma MissedOne(c: Config, d: int, has: bool, k: Counter, l: Log, missed: nat, possible: nat, now: int, today: int)
    requires DayOk(c, d, has, k, l, missed, possible, now, today) && Clock(now, today)
    requires !(has && now < k.expires) && missed < possible
    ensures DayOk(c, d, has, k, l, missed + 1, possible, now, today)
  {
  }

  lemma LostOne(c: Config, d: int, k: Counter, l: Log, missed: nat, possible: nat, now: int, today: int)
    requires DayOk(c, d, true, k, l, missed, possible, now, today) && Clock(now, today)
    requires now < k.expires && missed > 0
    ensures DayOk(c, d, true, k, Success(l, Over(true, k, l, now), Late(d, now), l.lost + 1),
                  missed - 1, possible - 1, now, today)
  {
  }

  lemma OpenedOne(c: Config, d: int, has: bool, k: Counter, l: Log, missed: nat, possible: nat, now: int, today: int, expires: int)
    requires DayOk(c, d, has, k, l, missed, possible, now, today) && Clock(now, today) && d <= today
    requires !(has && now < k.expires) && missed > 0
    requires expires > DayEnd(d) - SECOND && expires >= now + 60 * SECOND
    ensures DayOk(c, d, true, Counter(1, expires), Success(l, Over(has, k, l, now), Late(d, now), 0),
                  missed - 1, possible - 1, now, today)
  {
  }

  // ----- every run -----

  function HasMissed(d: int): Stage -> bool { (x: Stage) => x.Missed? && Day(x.stamp) == d }

  /** Who may still be recorded to a day: whoever has read the clock on it for the record and, while it lasts,
      whoever has been admitted or will be asking for the counter of an earlier day. */
  predicate MayRecord(limit: int, d: int, today: int, x: Stage) {
    match x
    case Checking(stamp) => limit > 0 && d == today && Day(stamp) < today
    case Working => d == today
    case Recording(stamp) => Day(stamp) == d
    case Missed(stamp) => Day(stamp) == d
  }

  function Possible(limit: int, d: int, today: int): Stage -> bool { (x: Stage) => MayRecord(limit, d, today, x) }

  predicate IsWorking(x: Stage) { x.Working? }

  ghost predicate DayHolds(c: Config, s: State, d: int) {
    DayOk(c, d, d in s.cache, CounterOf(s.cache, d), LogOf(s, d), |Those(s.stage, HasMissed(d))|,
          |Those(s.stage, Possible(c.limit, d, Day(s.now)))|, s.now, Day(s.now))
  }

  ghost predicate DaysHold(c: Config, s: State) { forall d :: DayHolds(c, s, d) }

  /** Stamps are not from the future, and without a limit above zero nobody gets past the check. */
  ghost predicate StagesHold(c: Config, s: State) {
    && |s.stage.Keys| <= c.overlap
    && (forall id | id in s.stage :: id < s.next && (s.stage[id].Working? || s.stage[id].stamp <= s.now))
    && (c.limit <= 0 ==> forall id | id in s.stage :: s.stage[id].Checking?)
  }

  ghost predicate Inv(c: Config, s: State) { DaysHold(c, s) && StagesHold(c, s) }

  lemma ClockOf(now: int)
    ensures Clock(now, Day(now))
  {
  }

  lemma DayOrder(a: int, b: int)
    requires a <= b
    ensures Day(a) <= Day(b)
  {
  }

  lemma TtlReaches(stamp: int)
    ensures stamp + Ttl(stamp) * SECOND > DayEnd(Day(stamp)) - SECOND && Ttl(stamp) >= 60
    ensures stamp >= DayEnd(Day(stamp)) - 60 * SECOND || (DayEnd(Day(stamp)) - stamp) % SECOND == 0
            ==> stamp + Ttl(stamp) * SECOND >= DayEnd(Day(stamp))
  {
    var left := DayEnd(Day(stamp)) - stamp;
    assert left == left / SECOND * SECOND + left % SECOND;
  }

  /** Somebody under way who may not be recorded to the day, or has not missed its counter. */
  lemma Another(stage: map<nat, Stage>, id: nat, p: Stage -> bool, q: Stage -> bool)
    requires id in stage && !p(stage[id]) && q(stage[id]) && forall x: Stage :: p(x) ==> q(x)
    ensures |Those(stage, p)| < |Those(stage, q)|
  {
    SubsetFits(Those(stage, p), Those(stage, q) - {id});
  }

  lemma FewerOf(stage: map<nat, Stage>, p: Stage -> bool, q: Stage -> bool)
    requires forall id | id in stage && p(stage[id]) :: q(stage[id])
    ensures |Those(stage, p)| <= |Those(stage, q)| <= |stage.Keys|
  {
    SubsetFits(Those(stage, p), Those(stage, q));
    SubsetFits(Those(stage, q), stage.Keys);
  }

  /** The passing of time, for one day. */
  lemma DayPasses(c: Config, s: State, at: int, d: int)
    requires DayHolds(c, s, d) && StagesHold(c, s) && s.now <= at
    ensures DayHolds(c, s.(now := at), d)
  {
    var today, today' := Day(s.now), Day(at);
    var p, p' := Possible(c.limit, d, today), Possible(c.limit, d, today');
    ClockOf(s.now);
    ClockOf(at);
    DayOrder(s.now, at);
    FewerOf(s.stage, HasMissed(d), p');
    if |Those(s.stage, p')| > 0 {
      var id :| id in Those(s.stage, p');
    }
    if !(d == today' > today) {
      forall id | id in s.stage && p'(s.stage[id]) ensures p(s.stage[id]) {
      }
      FewerOf(s.stage, p', p);
    }
    TimePasses(c, d, d in s.cache, CounterOf(s.cache, d), LogOf(s, d), |Those(s.stage, HasMissed(d))|, |Those(s.stage, p)|,
               s.now, today, at, today', |Those(s.stage, p')|);
  }

  lemma Passing(c: Config, s: State, at: int)
    requires Inv(c, s) && s.now <= at
    ensures Inv(c, s.(now := at))
  {
    var t := s.(now := at);
    forall d ensures DayHolds(c, t, d) {
      assert DayHolds(c, s, d);
      DayPasses(c, s, at, d);
    }
  }

  /** One request moves to another stage that counts the same for a day. */
  lemma SameCounts(c: Config, s: State, id: nat, x: Stage, d: int)
    requires DayHolds(c, s, d)
    requires HasMissed(d)(x) == (id in s.stage && HasMissed(d)(s.stage[id]))
    requires Possible(c.limit, d, Day(s.now))(x) == (id in s.stage && Possible(c.limit, d, Day(s.now))(s.stage[id]))
    ensures DayHolds(c, s.(stage := s.stage[id := x]), d)
  {
    EntryChanged(s.stage, id, x, HasMissed(d));
    EntryChanged(s.stage, id, x, Possible(c.limit, d, Day(s.now)));
  }

  lemma DayStarts(c: Config, s: State, d: int)
    requires DayHolds(c, s, d) && s.next !in s.stage
    ensures DayHolds(c, s.(stage := s.stage[s.next := Checking(s.now)], next := s.next + 1), d)
  {
    SameCounts(c, s, s.next, Checking(s.now), d);
  }

  lemma KeysEnter(stage: map<nat, Stage>, id: nat, x: Stage)
    ensures |stage[id := x].Keys| == |stage.Keys| + if id in stage then 0 else 1
  {
    assert stage[id := x].Keys == stage.Keys + {id};
  }

  lemma Starting(c: Config, s: State)
    requires Inv(c, s) && Enabled(c, s, Start(s.now))
    ensures Inv(c, Next(c, s, Start(s.now)))
  {
    KeysEnter(s.stage, s.next, Checking(s.now));
    forall d ensures DayHolds(c, Next(c, s, Start(s.now)), d) {
      assert DayHolds(c, s, d);
      DayStarts(c, s, d);
    }
  }

  /** A request is admitted by the counter of the day. */
  lemma Admitted(c: Config, s: State, id: nat)
    requires DayHolds(c, s, Day(s.now)) && StagesHold(c, s)
    requires id in s.stage && s.stage[id].Checking? && Day(s.stage[id].stamp) == Day(s.now)
    requires Used(s.cache, Day(s.now), s.now) < c.limit
    ensures DayHolds(c, s.(stage := s.stage[id := Working]), Day(s.now))
  {
    var d := Day(s.now);
    var p := Possible(c.limit, d, d);
    ClockOf(s.now);
    EntryChanged(s.stage, id, Working, HasMissed(d));
    EntryChanged(s.stage, id, Working, p);
    SubsetFits(Those(s.stage, p), s.stage.Keys - {id});
    assert DayHolds(c, s, d);
    OneMorePossible(c, d, d in s.cache, CounterOf(s.cache, d), LogOf(s, d), |Those(s.stage, HasMissed(d))|, |Those(s.stage, p)|, s.now);
  }

  /** A request leaves; for every day it counts less or the same. */
  lemma Leaving(c: Config, s: State, id: nat, d: int)
    requires DayHolds(c, s, d) && id in s.stage
    ensures DayHolds(c, s.(stage := s.stage - {id}), d)
    ensures |Those(s.stage - {id}, HasMissed(d))| == |Those(s.stage, HasMissed(d))| - (if HasMissed(d)(s.stage[id]) then 1 else 0)
    ensures var p := Possible(c.limit, d, Day(s.now));
      |Those(s.stage - {id}, p)| == |Those(s.stage, p)| - (if p(s.stage[id]) then 1 else 0)
  {
    var p := Possible(c.limit, d, Day(s.now));
    EntryRemoved(s.stage, id, HasMissed(d));
    EntryRemoved(s.stage, id, p);
    FewerOf(s.stage - {id}, HasMissed(d), p);
    FewerPossible(c, d, d in s.cache, CounterOf(s.cache, d), LogOf(s, d), |Those(s.stage, HasMissed(d))|, |Those(s.stage, p)|,
                  s.now, Day(s.now), |Those(s.stage - {id}, HasMissed(d))|, |Those(s.stage - {id}, p)|);
  }

  lemma KeysLeave(stage: map<nat, Stage>, id: nat)
    requires id in stage
    ensures |(stage - {id}).Keys| == |stage.Keys| - 1
  {
    assert (stage - {id}).Keys == stage.Keys - {id};
  }

  lemma Abandoning(c: Config, s: State, id: nat)
    requires Inv(c, s) && id in s.stage
    ensures Inv(c, s.(stage := s.stage - {id}))
  {
    KeysLeave(s.stage, id);
    forall d ensures DayHolds(c, s.(stage := s.stage - {id}), d) {
      assert DayHolds(c, s, d);
      Leaving(c, s, id, d);
    }
  }

  lemma DayDecides(c: Config, s: State, id: nat, d: int)
    requires DayHolds(c, s, d) && StagesHold(c, s) && id in s.stage && s.stage[id].Checking?
    requires Used(s.cache, Day(s.stage[id].stamp), s.now) < c.limit
    ensures DayHolds(c, s.(stage := s.stage[id := Working]), d)
  {
    DayOrder(s.stage[id].stamp, s.now);
    if d == Day(s.stage[id].stamp) && d == Day(s.now) {
      Admitted(c, s, id);
    } else {
      SameCounts(c, s, id, Working, d);
    }
  }

  lemma Deciding(c: Config, s: State, id: nat)
    requires Inv(c, s) && Enabled(c, s, Check(id, s.now))
    ensures Inv(c, Next(c, s, Check(id, s.now)))
  {
    if Used(s.cache, Day(s.stage[id].stamp), s.now) < c.limit {
      KeysEnter(s.stage, id, Working);
      forall d ensures DayHolds(c, Next(c, s, Check(id, s.now)), d) {
        assert DayHolds(c, s, d);
        DayDecides(c, s, id, d);
      }
    } else {
      Abandoning(c, s, id);
    }
  }

  lemma DayFinishes(c: Config, s: State, id: nat, d: int)
    requires DayHolds(c, s, d) && id in s.stage && s.stage[id].Working?
    ensures DayHolds(c, s.(stage := s.stage[id := Recording(s.now)]), d)
  {
    SameCounts(c, s, id, Recording(s.now), d);
  }

  lemma Finishing(c: Config, s: State, id: nat)
    requires Inv(c, s) && Enabled(c, s, Finish(id, s.now))
    ensures Inv(c, Next(c, s, Finish(id, s.now)))
  {
    KeysEnter(s.stage, id, Recording(s.now));
    forall d ensures DayHolds(c, Next(c, s, Finish(id, s.now)), d) {
      assert DayHolds(c, s, d);
      DayFinishes(c, s, id, d);
    }
  }

  /** The counts of a request's own day when it is about to be recorded to it. */
  lemma OwnDay(c: Config, s: State, id: nat, d: int)
    requires DayHolds(c, s, d) && id in s.stage && (s.stage[id].Recording? || s.stage[id].Missed?) && d == Day(s.stage[id].stamp)
    ensures Possible(c.limit, d, Day(s.now))(s.stage[id])
    ensures s.stage[id].Recording? ==> |Those(s.stage, HasMissed(d))| < |Those(s.stage, Possible(c.limit, d, Day(s.now)))|
    ensures s.stage[id].Missed? ==> 0 < |Those(s.stage, HasMissed(d))|
  {
    if s.stage[id].Recording? {
      Another(s.stage, id, HasMissed(d), Possible(c.limit, d, Day(s.now)));
    } else {
      assert id in Those(s.stage, HasMissed(d));
    }
  }

  /** The increment of a live counter, for the day it belongs to. */
  lemma OwnDayCounted(c: Config, s: State, id: nat, d: int)
    requires DayHolds(c, s, d) && Enabled(c, s, Incr(id, s.now)) && d == Day(s.stage[id].stamp) && Live(s.cache, d, s.now)
    ensures DayHolds(c, Next(c, s, Incr(id, s.now)), d)
  {
    ClockOf(s.now);
    OwnDay(c, s, id, d);
    Leaving(c, s, id, d);
    CountedOne(c, d, s.cache[d], LogOf(s, d), |Those(s.stage, HasMissed(d))|,
               |Those(s.stage, Possible(c.limit, d, Day(s.now)))|, s.now, Day(s.now));
  }

  /** A success leaves the other days alone. */
  lemma OtherDay(c: Config, s: State, t: State, id: nat, d: int)
    requires DayHolds(c, s, d) && id in s.stage && t.stage == s.stage - {id} && t.now == s.now
    requires (d in t.cache <==> d in s.cache) && CounterOf(t.cache, d) == CounterOf(s.cache, d) && LogOf(t, d) == LogOf(s, d)
    ensures DayHolds(c, t, d)
  {
    Leaving(c, s, id, d);
  }

  lemma DayIncrements(c: Config, s: State, id: nat, d: int)
    requires DayHolds(c, s, d) && Enabled(c, s, Incr(id, s.now)) && Live(s.cache, Day(s.stage[id].stamp), s.now)
    ensures DayHolds(c, Next(c, s, Incr(id, s.now)), d)
  {
    if d == Day(s.stage[id].stamp) {
      OwnDayCounted(c, s, id, d);
    } else {
      OtherDay(c, s, Next(c, s, Incr(id, s.now)), id, d);
    }
  }

  lemma Incrementing(c: Config, s: State, id: nat)
    requires Inv(c, s) && Enabled(c, s, Incr(id, s.now)) && Live(s.cache, Day(s.stage[id].stamp), s.now)
    ensures Inv(c, Next(c, s, Incr(id, s.now)))
  {
    KeysLeave(s.stage, id);
    forall d ensures DayHolds(c, Next(c, s, Incr(id, s.now)), d) {
      assert DayHolds(c, s, d);
      DayIncrements(c, s, id, d);
    }
  }

  lemma OwnDayMissed(c: Config, s: State, id: nat, d: int)
    requires DayHolds(c, s, d) && Enabled(c, s, Incr(id, s.now)) && d == Day(s.stage[id].stamp) && !Live(s.cache, d, s.now)
    ensures DayHolds(c, Next(c, s, Incr(id, s.now)), d)
  {
    var x := Missed(s.stage[id].stamp);
    ClockOf(s.now);
    OwnDay(c, s, id, d);
    EntryChanged(s.stage, id, x, HasMissed(d));
    EntryChanged(s.stage, id, x, Possible(c.limit, d, Day(s.now)));
    MissedOne(c, d, d in s.cache, CounterOf(s.cache, d), LogOf(s, d), |Those(s.stage, HasMissed(d))|,
              |Those(s.stage, Possible(c.limit, d, Day(s.now)))|, s.now, Day(s.now));
  }

  lemma DayMisses(c: Config, s: State, id: nat, d: int)
    requires DayHolds(c, s, d) && Enabled(c, s, Incr(id, s.now)) && !Live(s.cache, Day(s.stage[id].stamp), s.now)
    ensures DayHolds(c, Next(c, s, Incr(id, s.now)), d)
  {
    if d == Day(s.stage[id].stamp) {
      OwnDayMissed(c, s, id, d);
    } else {
      SameCounts(c, s, id, Missed(s.stage[id].stamp), d);
    }
  }

  lemma Missing(c: Config, s: State, id: nat)
    requires Inv(c, s) && Enabled(c, s, Incr(id, s.now)) && !Live(s.cache, Day(s.stage[id].stamp), s.now)
    ensures Inv(c, Next(c, s, Incr(id, s.now)))
  {
    KeysEnter(s.stage, id, Missed(s.stage[id].stamp));
    forall d ensures DayHolds(c, Next(c, s, Incr(id, s.now)), d) {
      assert DayHolds(c, s, d);
      DayMisses(c, s, id, d);
    }
  }

  /** An addition that comes too late, for the day it belongs to. */
  lemma OwnDayLost(c: Config, s: State, id: nat, d: int)
    requires DayHolds(c, s, d) && Enabled(c, s, Add(id, s.now)) && d == Day(s.stage[id].stamp) && Live(s.cache, d, s.now)
    ensures DayHolds(c, Next(c, s, Add(id, s.now)), d)
  {
    ClockOf(s.now);
    OwnDay(c, s, id, d);
    Leaving(c, s, id, d);
    LostOne(c, d, s.cache[d], LogOf(s, d), |Those(s.stage, HasMissed(d))|,
            |Those(s.stage, Possible(c.limit, d, Day(s.now)))|, s.now, Day(s.now));
  }

  /** An addition that opens a counter, for the day it belongs to. */
  lemma OwnDayOpened(c: Config, s: State, id: nat, d: int)
    requires DayHolds(c, s, d) && Enabled(c, s, Add(id, s.now)) && d == Day(s.stage[id].stamp) && !Live(s.cache, d, s.now)
    requires s.stage[id].stamp <= s.now
    ensures DayHolds(c, Next(c, s, Add(id, s.now)), d)
  {
    var stamp := s.stage[id].stamp;
    ClockOf(s.now);
    DayOrder(stamp, s.now);
    TtlReaches(stamp);
    OwnDay(c, s, id, d);
    Leaving(c, s, id, d);
    OpenedOne(c, d, d in s.cache, CounterOf(s.cache, d), LogOf(s, d), |Those(s.stage, HasMissed(d))|,
              |Those(s.stage, Possible(c.limit, d, Day(s.now)))|, s.now, Day(s.now), s.now + Ttl(stamp) * SECOND);
  }

  lemma DayAdds(c: Config, s: State, id: nat, d: int)
    requires DayHolds(c, s, d) && Enabled(c, s, Add(id, s.now)) && s.stage[id].stamp <= s.now
    ensures DayHolds(c, Next(c, s, Add(id, s.now)), d)
  {
    if d != Day(s.stage[id].stamp) {
      OtherDay(c, s, Next(c, s, Add(id, s.now)), id, d);
    } else if Live(s.cache, d, s.now) {
      OwnDayLost(c, s, id, d);
    } else {
      OwnDayOpened(c, s, id, d);
    }
  }

  lemma Adding(c: Config, s: State, id: nat)
    requires Inv(c, s) && Enabled(c, s, Add(id, s.now))
    ensures Inv(c, Next(c, s, Add(id, s.now)))
  {
    KeysLeave(s.stage, id);
    forall d ensures DayHolds(c, Next(c, s, Add(id, s.now)), d) {
      assert DayHolds(c, s, d);
      DayAdds(c, s, id, d);
    }
  }

  /** A check is passed exactly if the limit is above zero and the counter of the day on which the clock was read
      is not live or below it; a request that is refused is gone at once. */
  lemma CheckExactly(c: Config, s: State, id: nat, at: int)
    requires Inv(c, s) && id in s.stage && s.stage[id].Checking? && s.now <= at
    ensures Enabled(c, s, Check(id, at))
    ensures var t, d := Next(c, s, Check(id, at)), Day(s.stage[id].stamp);
      && t.cache == s.cache && t.log == s.log && t.now == at
      && (id in t.stage <==> c.limit > 0 && !(d in s.cache && at < s.cache[d].expires && s.cache[d].n >= c.limit))
      && (id in t.stage ==> t.stage[id] == Working)
      && forall x | x in s.stage && x != id :: x in t.stage && t.stage[x] == s.stage[x]
  {
  }

  /** A request that is given up makes room for another and leaves no trace. */
  lemma AbandoningMakesRoom(c: Config, s: State, id: nat, at: int)
    requires Inv(c, s) && id in s.stage && s.now <= at
    ensures Enabled(c, s, Abandon(id, at))
    ensures var t := Next(c, s, Abandon(id, at));
      id !in t.stage && Enabled(c, t, Start(at)) && t.cache == s.cache && t.log == s.log
      && forall x | x in s.stage && x != id :: x in t.stage && t.stage[x] == s.stage[x]
  {
    KeysLeave(s.stage, id);
  }

  /** Only the time of the event matters, not that of the one before. */
  lemma NextAtItsTime(c: Config, s: State, e: Event)
    requires Enabled(c, s, e)
    ensures Enabled(c, s.(now := e.at), e) && Next(c, s.(now := e.at), e) == Next(c, s, e)
  {
  }

  lemma StepKeepsInv(c: Config, s: State, e: Event)
    requires Inv(c, s) && Enabled(c, s, e)
    ensures Inv(c, Next(c, s, e))
  {
    var t := s.(now := e.at);
    Passing(c, s, e.at);
    NextAtItsTime(c, s, e);
    match e
    case Start(_) => Starting(c, t);
    case Check(id, _) => Deciding(c, t, id);
    case Abandon(id, _) => Abandoning(c, t, id);
    case Finish(id, _) => Finishing(c, t, id);
    case Add(id, _) => Adding(c, t, id);
    case Incr(id, _) =>
      if Live(t.cache, Day(t.stage[id].stamp), t.now) {
        Incrementing(c, t, id);
      } else {
        Missing(c, t, id);
      }
  }

  lemma InitiallyHolds(c: Config, d: int)
    ensures DayHolds(c, Initial(), d)
  {
    assert Those(Initial().stage, HasMissed(d)) == {} && Those(Initial().stage, Possible(c.limit, d, 0)) == {};
  }

  lemma {:induction false} EveryRunHolds(c: Config, es: seq<Event>)
    requires IsRun(c, es)
    ensures Inv(c, After(c, es))
  {
    if es == [] {
      forall d ensures DayHolds(c, Initial(), d) {
        InitiallyHolds(c, d);
      }
    } else {
      EveryRunHolds(c, es[..|es| - 1]);
      StepKeepsInv(c, After(c, es[..|es| - 1]), es[|es| - 1]);
    }
  }

  /** The successes recorded to any one day, including those of requests admitted the day before and those whose
      record reaches the cache the day after, exceed the bound by at most one for each that was recorded
      in or after the day's last second, and never by more than the bound itself.  In particular they
      stay within it if nothing is recorded so late. */
  lemma SuccessesBounded(c: Config, es: seq<Event>, d: int)
    requires IsRun(c, es)
    ensures Recorded(After(c, es), d) <= Bound(c) + Min(LogOf(After(c, es), d).late, Bound(c))
  {
    EveryRunHolds(c, es);
    assert DayHolds(c, After(c, es), d);
  }

  // ----- the code -----

  datatype Option<T> = None | Some(value: T)

  /** What the user's profile limits, if there is one. */
  datatype Profile = Profile(requests: Option<int>, tokens: Option<int>)

  class UserQuota {
    const profile: Option<Profile>
    var requests: map<int, Counter>
    var tokens: map<int, Counter>

    constructor (profile: Option<Profile>)
      ensures this.profile == profile && requests == tokens == map[]
    {
      this.profile, requests, tokens := profile, map[], map[];
    }

    /** The check, which changes nothing.  It passes exactly if no limit speaks against it. */
    method CheckUserDailyQuota(stamp: int, at: int, promptTokens: int, completionTokens: int) returns (allowed: bool, reason: string)
      ensures allowed == (reason == "")
      ensures reason == "daily_request_limit_exceeded" <==>
              profile.Some? && profile.value.requests.Some? && Used(requests, Day(stamp), at) >= profile.value.requests.value
      ensures reason == "daily_token_limit_exceeded" <==>
              profile.Some? && reason != "daily_request_limit_exceeded" && profile.value.tokens.Some?
                && Used(tokens, Day(stamp), at) + Max(0, promptTokens) + Max(0, completionTokens) > profile.value.tokens.value
      ensures allowed || reason == "daily_request_limit_exceeded" || reason == "daily_token_limit_exceeded"
    {
      if profile.None? {
        return true, "";
      }
      var day := Day(stamp);
      if profile.value.requests.Some? {
        var used := 0;
        if Live(requests, day, at) {
          used := requests[day].n;
        }
        if used >= profile.value.requests.value {
          return false, "daily_request_limit_exceeded";
        }
      }
      if profile.value.tokens.Some? {
        var used := 0;
        if Live(tokens, day, at) {
          used := tokens[day].n;
        }
        var add := Max(0, promptTokens) + Max(0, completionTokens);
        if used + add > profile.value.tokens.value {
          return false, "daily_token_limit_exceeded";
        }
      }
      return true, "";
    }

    /** The first call of a record: an increment that raises if there is no counter. */
    method IncrementRequests(stamp: int, at: int) returns (raised: bool)
      modifies this`requests
      ensures raised == !Live(old(requests), Day(stamp), at)
      ensures requests == if raised then old(requests) else Incremented(old(requests), Day(stamp))
    {
      var key := Day(stamp);
      if !Live(requests, key, at) {
        return true;
      }
      requests := requests[key := requests[key].(n := requests[key].n + 1)];
      return false;
    }

    /** The second call, if the first raised. */
    method AddFirstRequest(stamp: int, now: int)
      modifies this`requests
      ensures requests == Added(old(requests), stamp, now)
    {
      var key, ttl := Day(stamp), Ttl(stamp);
      if !Live(requests, key, now) {
        requests := requests[key := Counter(1, now + ttl * SECOND)];
      }
    }
  }
}
