/** How many successes a day of the daily quota can really have: runs that reach the bounds of DailyQuota. */
module DailyQuotaBounds {
  import opened Tally
  import opened DailyQuota

  /** Half a second past midnight, and a moment within the last half second of the same day. */
  const EARLY: int := 500_000
  const LATE: int := DAY - 500_000

  lemma EarlyFacts()
    ensures Day(EARLY) == 0 && Day(LATE) == 0 && EARLY + Ttl(EARLY) * SECOND == LATE && Ttl(LATE) == 60
  {
    assert DayEnd(0) - EARLY == 86_399 * SECOND + 500_000;
  }

  /** How many requests work and how many have missed, at one of these moments. */
  ghost predicate StageStands(stage: map<nat, Stage>, next: nat, at: int, working: nat, missed: nat) {
    && |Those(stage, IsWorking)| == working && |Those(stage, HasMissed(0))| == missed && |stage.Keys| == working + missed
    && (forall id | id in stage :: id < next && (stage[id] == Working || stage[id] == Missed(at)))
  }

  /** Day zero's live counter has the value n, or there is none and n is zero. */
  ghost predicate CounterStands(cache: map<int, Counter>, l: Log, at: int, n: nat) {
    && (if n == 0 then !Live(cache, 0, at)
        else 0 in cache && cache[0] == Counter(n, at + Ttl(at) * SECOND))
    && (Over(0 in cache, CounterOf(cache, 0), l, at) <==> at == LATE)
  }

  ghost predicate Stands(s: State, at: int, working: nat, missed: nat, n: nat, l: Log) {
    s.now <= at && StageStands(s.stage, s.next, at, working, missed) && CounterStands(s.cache, l, at, n) && LogOf(s, 0) == l
  }

  lemma StageEnters(stage: map<nat, Stage>, next: nat, at: int, w: nat, m: nat)
    requires StageStands(stage, next, at, w, m)
    ensures StageStands(stage[next := Working], next + 1, at, w + 1, m)
  {
    var stage' := stage[next := Working];
    assert next !in stage;
    KeysEnter(stage, next, Working);
    EntryChanged(stage, next, Working, IsWorking);
    EntryChanged(stage, next, Working, HasMissed(0));
    assert forall id | id in stage' :: id == next || id in stage;
  }

  lemma StageMisses(stage: map<nat, Stage>, next: nat, at: int, w: nat, m: nat, id: nat)
    requires StageStands(stage, next, at, w, m) && id in stage && stage[id].Working? && Day(at) == 0
    ensures w > 0 && StageStands(stage[id := Missed(at)], next, at, w - 1, m + 1)
  {
    assert id in Those(stage, IsWorking);
    assert stage[id := Missed(at)].Keys == stage.Keys;
    EntryChanged(stage, id, Missed(at), IsWorking);
    EntryChanged(stage, id, Missed(at), HasMissed(0));
  }

  lemma StageLeaves(stage: map<nat, Stage>, next: nat, at: int, w: nat, m: nat, id: nat)
    requires StageStands(stage, next, at, w, m) && id in stage && Day(at) == 0
    ensures if stage[id].Working? then w > 0 && StageStands(stage - {id}, next, at, w - 1, m)
            else m > 0 && StageStands(stage - {id}, next, at, w, m - 1)
  {
    assert id in if stage[id].Working? then Those(stage, IsWorking) else Those(stage, HasMissed(0));
    assert (stage - {id}).Keys == stage.Keys - {id};
    EntryRemoved(stage, id, IsWorking);
    EntryRemoved(stage, id, HasMissed(0));
  }

  ghost predicate LeadsTo(c: Config, es: seq<Event>, s: State) { IsRun(c, es) && After(c, es) == s }

  lemma Take(c: Config, es: seq<Event>, s: State, e: Event) returns (es': seq<Event>, s': State)
    requires LeadsTo(c, es, s) && Enabled(c, s, e)
    ensures LeadsTo(c, es', s') && s' == Next(c, s, e)
  {
    es', s' := es + [e], Next(c, s, e);
    assert es'[..|es|] == es;
  }

  predicate Moment(at: int) { at == EARLY || at == LATE }

  /** A check that reads the clock and asks the cache at once, and is passed. */
  lemma CheckAtOnce(c: Config, s: State, at: int)
    requires s.now <= at && s.next !in s.stage && |s.stage.Keys| < c.overlap && Used(s.cache, Day(at), at) < c.limit
    ensures Enabled(c, s, Start(at)) && Enabled(c, Next(c, s, Start(at)), Check(s.next, at))
    ensures Next(c, Next(c, s, Start(at)), Check(s.next, at)) ==
            s.(now := at, stage := s.stage[s.next := Working], next := s.next + 1)
  {
    assert s.stage[s.next := Checking(at)][s.next := Working] == s.stage[s.next := Working];
  }

  /** A record that reads the clock and makes its first call at once. */
  lemma RecordAtOnce(c: Config, s: State, at: int, id: nat)
    requires s.now <= at && id in s.stage && s.stage[id] == Working
    ensures Enabled(c, s, Finish(id, at)) && Enabled(c, Next(c, s, Finish(id, at)), Incr(id, at))
    ensures Next(c, Next(c, s, Finish(id, at)), Incr(id, at)) ==
            if Live(s.cache, Day(at), at)
            then s.(now := at, stage := s.stage - {id}, cache := Incremented(s.cache, Day(at)),
                    log := LogSuccess(s, Day(at), at, LogOf(s, Day(at)).lost))
            else s.(now := at, stage := s.stage[id := Missed(at)])
  {
    assert s.stage[id := Recording(at)] - {id} == s.stage - {id};
    assert s.stage[id := Recording(at)][id := Missed(at)] == s.stage[id := Missed(at)];
  }

  lemma TakeTwo(c: Config, es: seq<Event>, s: State, e: Event, f: Event) returns (es': seq<Event>, s': State)
    requires LeadsTo(c, es, s) && Enabled(c, s, e) && Enabled(c, Next(c, s, e), f)
    ensures LeadsTo(c, es', s') && s' == Next(c, Next(c, s, e), f)
  {
    var es1, s1 := Take(c, es, s, e);
    es', s' := Take(c, es1, s1, f);
  }

  lemma TakeCheck(c: Config, es: seq<Event>, s: State, at: int, w: nat, m: nat, n: nat, l: Log)
    returns (es': seq<Event>, s': State)
    requires Moment(at) && LeadsTo(c, es, s) && Stands(s, at, w, m, n, l) && w + m < c.overlap && n < c.limit
    ensures LeadsTo(c, es', s') && Stands(s', at, w + 1, m, n, l)
  {
    EarlyFacts();
    CheckAtOnce(c, s, at);
    StageEnters(s.stage, s.next, at, w, m);
    es', s' := TakeTwo(c, es, s, Start(at), Check(s.next, at));
  }

  lemma SomeoneWorks(stage: map<nat, Stage>, next: nat, at: int, w: nat, m: nat) returns (id: nat)
    requires StageStands(stage, next, at, w, m) && w > 0
    ensures id in stage && stage[id] == Working
  {
    id :| id in Those(stage, IsWorking);
  }

  lemma SomeoneMissed(stage: map<nat, Stage>, next: nat, at: int, w: nat, m: nat) returns (id: nat)
    requires StageStands(stage, next, at, w, m) && m > 0
    ensures id in stage && stage[id] == Missed(at)
  {
    id :| id in Those(stage, HasMissed(0));
  }

  lemma TakeMiss(c: Config, es: seq<Event>, s: State, at: int, w: nat, m: nat, l: Log)
    returns (es': seq<Event>, s': State)
    requires Moment(at) && LeadsTo(c, es, s) && Stands(s, at, w, m, 0, l) && w > 0
    ensures LeadsTo(c, es', s') && Stands(s', at, w - 1, m + 1, 0, l)
  {
    EarlyFacts();
    var id := SomeoneWorks(s.stage, s.next, at, w, m);
    RecordAtOnce(c, s, at, id);
    StageMisses(s.stage, s.next, at, w, m, id);
    es', s' := TakeTwo(c, es, s, Finish(id, at), Incr(id, at));
  }

  /** The log with one more success at one of these moments. */
  function Logged(l: Log, at: int, lost: nat): Log { Success(l, at == LATE, at == LATE, lost) }

  /** j more successes at one of these moments. */
  ghost predicate Gained(l: Log, l': Log, at: int, j: nat) {
    if at == LATE then l'.first == l.first && l'.again == l.again + j && l'.late == l.late + j
    else l'.first == l.first + j && l'.again == l.again && l'.late == l.late
  }

  lemma GainedMore(l: Log, l1: Log, l2: Log, at: int, i: nat, j: nat)
    requires Gained(l, l1, at, i) && Gained(l1, l2, at, j)
    ensures Gained(l, l2, at, i + j)
  {
  }

  lemma CounterCounts(cache: map<int, Counter>, l: Log, at: int, n: nat)
    requires Moment(at) && CounterStands(cache, l, at, n) && n > 0
    ensures CounterStands(Incremented(cache, 0), Logged(l, at, l.lost), at, n + 1)
  {
    EarlyFacts();
  }

  lemma TakeIncr(c: Config, es: seq<Event>, s: State, at: int, w: nat, m: nat, n: nat, l: Log)
    returns (es': seq<Event>, s': State, l': Log)
    requires Moment(at) && LeadsTo(c, es, s) && Stands(s, at, w, m, n, l) && w > 0 && n > 0
    ensures LeadsTo(c, es', s') && Stands(s', at, w - 1, m, n + 1, l') && Gained(l, l', at, 1)
  {
    EarlyFacts();
    var id := SomeoneWorks(s.stage, s.next, at, w, m);
    RecordAtOnce(c, s, at, id);
    StageLeaves(s.stage, s.next, at, w, m, id);
    CounterCounts(s.cache, l, at, n);
    l' := Logged(l, at, l.lost);
    es', s' := TakeTwo(c, es, s, Finish(id, at), Incr(id, at));
  }

  lemma CounterAdds(cache: map<int, Counter>, l: Log, at: int, n: nat)
    requires Moment(at) && CounterStands(cache, l, at, n)
    ensures CounterStands(Added(cache, at, at), Logged(l, at, if n == 0 then 0 else l.lost + 1), at, Max(n, 1))
  {
    EarlyFacts();
  }

  lemma TakeAdd(c: Config, es: seq<Event>, s: State, at: int, w: nat, m: nat, n: nat, l: Log)
    returns (es': seq<Event>, s': State, l': Log)
    requires Moment(at) && LeadsTo(c, es, s) && Stands(s, at, w, m, n, l) && m > 0
    ensures LeadsTo(c, es', s') && Stands(s', at, w, m - 1, Max(n, 1), l') && Gained(l, l', at, 1)
  {
    EarlyFacts();
    var id := SomeoneMissed(s.stage, s.next, at, w, m);
    StageLeaves(s.stage, s.next, at, w, m, id);
    CounterAdds(s.cache, l, at, n);
    l' := Logged(l, at, if n == 0 then 0 else l.lost + 1);
    es', s' := Take(c, es, s, Add(id, at));
  }

  /** A request that is checked and recorded on its own. */
  lemma TakeAlone(c: Config, es: seq<Event>, s: State, at: int, n: nat, l: Log)
    returns (es': seq<Event>, s': State, l': Log)
    requires Moment(at) && LeadsTo(c, es, s) && Stands(s, at, 0, 0, n, l) && 0 < n < c.limit && c.overlap > 0
    ensures LeadsTo(c, es', s') && Stands(s', at, 0, 0, n + 1, l') && Gained(l, l', at, 1)
  {
    var es1, s1 := TakeCheck(c, es, s, at, 0, 0, n, l);
    es', s', l' := TakeIncr(c, es1, s1, at, 1, 0, n, l);
  }

  /** k checks in a row. */
  lemma {:induction false} TakeChecks(c: Config, es: seq<Event>, s: State, at: int, k: nat, n: nat, l: Log)
    returns (es': seq<Event>, s': State)
    requires Moment(at) && LeadsTo(c, es, s) && Stands(s, at, 0, 0, n, l) && k <= c.overlap && n < c.limit
    ensures LeadsTo(c, es', s') && Stands(s', at, k, 0, n, l)
  {
    if k == 0 {
      es', s' := es, s;
    } else {
      var es1, s1 := TakeChecks(c, es, s, at, k - 1, n, l);
      es', s' := TakeCheck(c, es1, s1, at, k - 1, 0, n, l);
    }
  }

  /** i of k admitted requests miss. */
  lemma {:induction false} TakeMisses(c: Config, es: seq<Event>, s: State, at: int, k: nat, i: nat, l: Log)
    returns (es': seq<Event>, s': State)
    requires Moment(at) && LeadsTo(c, es, s) && Stands(s, at, k, 0, 0, l) && i <= k
    ensures LeadsTo(c, es', s') && Stands(s', at, k - i, i, 0, l)
  {
    if i == 0 {
      es', s' := es, s;
    } else {
      var es1, s1 := TakeMisses(c, es, s, at, k, i - 1, l);
      es', s' := TakeMiss(c, es1, s1, at, k - (i - 1), i - 1, l);
    }
  }

  /** j of k requests that missed add; the first of them opens the counter. */
  lemma {:induction false} TakeAdds(c: Config, es: seq<Event>, s: State, at: int, k: nat, j: nat, l: Log)
    returns (es': seq<Event>, s': State, l': Log)
    requires Moment(at) && LeadsTo(c, es, s) && Stands(s, at, 0, k, 0, l) && 1 <= j <= k
    ensures LeadsTo(c, es', s') && Stands(s', at, 0, k - j, 1, l') && Gained(l, l', at, j)
  {
    if j == 1 {
      es', s', l' := TakeAdd(c, es, s, at, 0, k, 0, l);
    } else {
      var es1, s1, l1 := TakeAdds(c, es, s, at, k, j - 1, l);
      es', s', l' := TakeAdd(c, es1, s1, at, 0, k - (j - 1), 1, l1);
      GainedMore(l, l1, l', at, j - 1, 1);
    }
  }

  /** All admitted requests miss before the first of them adds; then j of them do. */
  lemma FirstWave(c: Config, es: seq<Event>, s: State, at: int, j: nat, l: Log)
    returns (es': seq<Event>, s': State, l': Log)
    requires Moment(at) && LeadsTo(c, es, s) && Stands(s, at, 0, 0, 0, l) && 1 <= j <= c.overlap && c.limit > 0
    ensures LeadsTo(c, es', s') && Stands(s', at, 0, c.overlap - j, 1, l') && Gained(l, l', at, j)
  {
    var es1, s1 := TakeChecks(c, es, s, at, c.overlap, 0, l);
    var es2, s2 := TakeMisses(c, es1, s1, at, c.overlap, c.overlap, l);
    es', s', l' := TakeAdds(c, es2, s2, at, c.overlap, j, l);
  }

  /** One request after the other, up to the limit. */
  lemma {:induction false} OneByOne(c: Config, es: seq<Event>, s: State, at: int, j: nat, l: Log)
    returns (es': seq<Event>, s': State, l': Log)
    requires Moment(at) && LeadsTo(c, es, s) && Stands(s, at, 0, 0, 1, l) && j + 1 < c.limit && c.overlap > 0
    ensures LeadsTo(c, es', s') && Stands(s', at, 0, 0, 1 + j, l') && Gained(l, l', at, j)
  {
    if j == 0 {
      es', s', l' := es, s, l;
    } else {
      var es1, s1, l1 := OneByOne(c, es, s, at, j - 1, l);
      es', s', l' := TakeAlone(c, es1, s1, at, j, l1);
      GainedMore(l, l1, l', at, j - 1, 1);
    }
  }

  /** j of k admitted requests succeed. */
  lemma {:induction false} TakeIncrs(c: Config, es: seq<Event>, s: State, at: int, k: nat, j: nat, n: nat, l: Log)
    returns (es': seq<Event>, s': State, l': Log)
    requires Moment(at) && LeadsTo(c, es, s) && Stands(s, at, k, 0, n, l) && j <= k && n > 0
    ensures LeadsTo(c, es', s') && Stands(s', at, k - j, 0, n + j, l') && Gained(l, l', at, j)
  {
    if j == 0 {
      es', s', l' := es, s, l;
    } else {
      var es1, s1, l1 := TakeIncrs(c, es, s, at, k, j - 1, n, l);
      es', s', l' := TakeIncr(c, es1, s1, at, k - (j - 1), 0, n + (j - 1), l1);
      GainedMore(l, l1, l', at, j - 1, 1);
    }
  }

  /** When one more request would reach the limit, as many as possible are admitted, and j of them succeed. */
  lemma LastWave(c: Config, es: seq<Event>, s: State, at: int, j: nat, l: Log)
    returns (es': seq<Event>, s': State, l': Log)
    requires Moment(at) && LeadsTo(c, es, s) && c.limit >= 2 && Stands(s, at, 0, 0, c.limit - 1, l) && j <= c.overlap
    ensures LeadsTo(c, es', s') && Stands(s', at, c.overlap - j, 0, c.limit - 1 + j, l') && Gained(l, l', at, j)
  {
    var es1, s1 := TakeChecks(c, es, s, at, c.overlap, c.limit - 1, l);
    es', s', l' := TakeIncrs(c, es1, s1, at, c.overlap, j, c.limit - 1, l);
  }

  /** The rest of a counter's life after all of the first wave have added. */
  lemma BeyondFirstWave(c: Config, es: seq<Event>, s: State, at: int, j: nat, l: Log)
    returns (es': seq<Event>, s': State, w: nat, n: nat, l': Log)
    requires Moment(at) && LeadsTo(c, es, s) && Stands(s, at, 0, 0, 1, l)
    requires c.limit >= 2 && c.overlap > 0 && j <= c.limit - 2 + c.overlap
    ensures LeadsTo(c, es', s') && n > 0 && Stands(s', at, w, 0, n, l') && Gained(l, l', at, j)
    ensures j == c.limit - 2 + c.overlap ==> w == 0
  {
    var alone := Min(j, c.limit - 2);
    var es1, s1, l1 := OneByOne(c, es, s, at, alone, l);
    if j == alone {
      es', s', w, n, l' := es1, s1, 0, 1 + alone, l1;
    } else {
      assert 1 + alone == c.limit - 1;
      es', s', l' := LastWave(c, es1, s1, at, j - alone, l1);
      w, n := c.overlap - (j - alone), c.limit - 1 + (j - alone);
      GainedMore(l, l1, l', at, alone, j - alone);
    }
  }

  /** In the life of one counter any number of successes up to the bound can be recorded. */
  lemma OneLife(c: Config, es: seq<Event>, s: State, at: int, j: nat, l: Log)
    returns (es': seq<Event>, s': State, w: nat, m: nat, n: nat, l': Log)
    requires Moment(at) && LeadsTo(c, es, s) && Stands(s, at, 0, 0, 0, l) && j <= Bound(c)
    ensures LeadsTo(c, es', s') && Stands(s', at, w, m, n, l') && Gained(l, l', at, j)
    ensures j == Bound(c) > 0 ==> w == m == 0 && n > 0
  {
    if j == 0 {
      return es, s, 0, 0, 0, l;
    }
    var wave := Min(j, c.overlap);
    var es1, s1, l1 := FirstWave(c, es, s, at, wave, l);
    if j == wave {
      es', s', w, m, n, l' := es1, s1, 0, c.overlap - wave, 1, l1;
    } else {
      m := 0;
      es', s', w, n, l' := BeyondFirstWave(c, es1, s1, at, j - wave, l1);
      GainedMore(l, l1, l', at, wave, j - wave);
    }
  }

  /** In the day's last half second its counter is gone. */
  lemma CounterIsGone(s: State, n: nat, l: Log)
    requires Stands(s, EARLY, 0, 0, n, l) && n > 0
    ensures Stands(s, LATE, 0, 0, 0, l)
  {
    EarlyFacts();
    assert s.stage.Keys == {};
  }

  lemma InitiallyStands()
    ensures Stands(Initial(), EARLY, 0, 0, 0, Log(0, 0, 0, 0))
  {
    assert Those(Initial().stage, IsWorking) == {} && Those(Initial().stage, HasMissed(0)) == {};
  }

  /** The bound is used up early in the day, and its last half second has come. */
  lemma BoundUsedUp(c: Config) returns (es: seq<Event>, s: State, l: Log)
    requires Bound(c) > 0
    ensures LeadsTo(c, es, s) && Stands(s, LATE, 0, 0, 0, l)
    ensures l.first == Bound(c) && l.again == l.late == 0
  {
    InitiallyStands();
    var w, k, n;
    es, s, w, k, n, l := OneLife(c, [], Initial(), EARLY, Bound(c), Log(0, 0, 0, 0));
    CounterIsGone(s, n, l);
  }

  /** The run leaves this log for day zero. */
  ghost predicate LogsTo(c: Config, es: seq<Event>, l: Log) { IsRun(c, es) && LogOf(After(c, es), 0) == l }

  lemma SecondLife(c: Config, m: nat) returns (es: seq<Event>, l: Log, l': Log)
    requires 0 < Bound(c) && m <= Bound(c)
    ensures LogsTo(c, es, l') && Gained(l, l', LATE, m)
    ensures l.first == Bound(c) && l.again == l.late == 0
  {
    var es1, s1, s2, w, k, n;
    es1, s1, l := BoundUsedUp(c);
    es, s2, w, k, n, l' := OneLife(c, es1, s1, LATE, m, l);
  }

  lemma NothingYet(c: Config)
    ensures LogsTo(c, [], Log(0, 0, 0, 0))
  {
  }

  /** Both bounds are reached: for every number of late records up to the bound there is a run with just as many
      of them that exceeds the bound by that number. */
  lemma {:induction false} BoundExceeded(c: Config, m: nat) returns (es: seq<Event>, l: Log)
    requires m <= Bound(c)
    ensures LogsTo(c, es, l) && l.late == m && l.first + l.again == Bound(c) + m
  {
    if Bound(c) == 0 {
      NothingYet(c);
      es, l := [], Log(0, 0, 0, 0);
    } else {
      var l1;
      es, l1, l := SecondLife(c, m);
    }
  }

  /** No run with at most m late records for a day records more than x successes to it. */
  ghost predicate NeverMoreThan(c: Config, m: nat, x: int) {
    forall es, d | IsRun(c, es) && LogOf(After(c, es), d).late <= m :: Recorded(After(c, es), d) <= x
  }

  /** How many successes a day can have: the bound if none of them is recorded in or after its last second, one
      more for each that is, and twice the bound at most; none of these figures can be lowered. */
  lemma SuccessesExactly(c: Config, m: nat, x: int)
    ensures NeverMoreThan(c, m, x) <==> Bound(c) + Min(m, Bound(c)) <= x
  {
    if Bound(c) + Min(m, Bound(c)) <= x {
      forall es, d | IsRun(c, es) && LogOf(After(c, es), d).late <= m ensures Recorded(After(c, es), d) <= x {
        SuccessesBounded(c, es, d);
      }
    } else {
      var es, l := BoundExceeded(c, Min(m, Bound(c)));
    }
  }
}
