/** Requests per minute: one counter per key and clock minute, kept in a store that forgets it after a
    time to live.  The state here is what the store holds for one API key. */
module RateLimit {

  datatype Expiry = Never | At(t: real)

  datatype Counter = Counter(n: nat, expiry: Expiry)

  type Store = map<int, Counter>

  /** How the store answers: the increment succeeds and, for a new counter, the expiry is set so that it
      ends at a deadline; or the increment fails; or only setting the expiry fails. */
  datatype Answer = Served(deadline: real) | IncrFails | ExpireFails

  /** A request takes the time, which decides its window, and reaches the store some time later. */
  datatype Call = Call(stamp: real, at: real, answer: Answer)

  const MINUTE := 60.0
  const TTL := 120.0

  function Window(now: real): int { (now / MINUTE).Floor }

  predicate Live(store: Store, w: int, now: real) {
    w in store && (store[w].expiry.Never? || now < store[w].expiry.t)
  }

  /** The store after a call, and whether the request is allowed. */
  function Consume(store: Store, rpm: int, c: Call): (Store, bool) {
    if rpm <= 0 || c.answer.IncrFails? then (store, true)
    else
      var w := Window(c.stamp);
      if Live(store, w, c.at) then
        var n := store[w].n + 1;
        (store[w := store[w].(n := n)], n <= rpm)
      else
        (store[w := Counter(1, if c.answer.Served? then At(c.answer.deadline) else Never)], true)
  }

  function After(rpm: int, cs: seq<Call>): Store {
    if cs == [] then map[] else Consume(After(rpm, cs[..|cs| - 1]), rpm, cs[|cs| - 1]).0
  }

  predicate LastAllowed(rpm: int, cs: seq<Call>)
    requires cs != []
  {
    Consume(After(rpm, cs[..|cs| - 1]), rpm, cs[|cs| - 1]).1
  }

  /** Calls are listed as they reach the store, whatever the order of their stamps.  A time to live of two
      minutes is set no earlier than the call it belongs to. */
  ghost predicate Ordered(cs: seq<Call>) {
    && (forall i, j | 0 <= i < j < |cs| :: cs[i].at <= cs[j].at)
    && (forall i | 0 <= i < |cs| :: cs[i].stamp <= cs[i].at)
    && (forall i | 0 <= i < |cs| && cs[i].answer.Served? :: cs[i].answer.deadline >= cs[i].at + TTL)
  }

  /** No call takes longer than this to reach the store. */
  ghost predicate Within(cs: seq<Call>, delay: real) {
    forall i | 0 <= i < |cs| :: cs[i].at <= cs[i].stamp + delay
  }

  ghost predicate Trace(cs: seq<Call>) { Ordered(cs) && Within(cs, MINUTE) }

  // ----- counting calls -----

  /** Calls of window w that the store counted. */
  function Hits(cs: seq<Call>, w: int): nat {
    if cs == [] then 0
    else Hits(cs[..|cs| - 1], w) +
         if Window(cs[|cs| - 1].stamp) == w && !cs[|cs| - 1].answer.IncrFails? then 1 else 0
  }

  function Failures(cs: seq<Call>, w: int): nat {
    if cs == [] then 0
    else Failures(cs[..|cs| - 1], w) +
         if Window(cs[|cs| - 1].stamp) == w && cs[|cs| - 1].answer.IncrFails? then 1 else 0
  }

  function Allowed(rpm: int, cs: seq<Call>, w: int): nat {
    if cs == [] then 0
    else Allowed(rpm, cs[..|cs| - 1], w) +
         if Window(cs[|cs| - 1].stamp) == w && LastAllowed(rpm, cs) then 1 else 0
  }

  function Min(a: int, b: int): int { if a < b then a else b }

  /** A counter holds the hits of its window and does not expire inside it. */
  ghost predicate Counts(store: Store, cs: seq<Call>) {
    forall w :: if Hits(cs, w) == 0 then w !in store
                else w in store && store[w].n == Hits(cs, w) &&
                     (store[w].expiry.At? ==> store[w].expiry.t >= (w + 2) as real * MINUTE)
  }

  lemma WindowBounds(now: real)
    ensures Window(now) as real * MINUTE <= now < (Window(now) + 1) as real * MINUTE
  {
    var q := now / MINUTE;
    assert q * MINUTE == now;
    assert q.Floor as real <= q < (q.Floor + 1) as real;
  }

  lemma {:induction false} CountersAreHits(rpm: int, cs: seq<Call>)
    requires rpm > 0 && Trace(cs)
    ensures Counts(After(rpm, cs), cs)
  {
    if cs != [] {
      var before, c := cs[..|cs| - 1], cs[|cs| - 1];
      CountersAreHits(rpm, before);
      var store := After(rpm, before);
      var v := Window(c.stamp);
      WindowBounds(c.stamp);
      forall w
        ensures if Hits(cs, w) == 0 then w !in After(rpm, cs)
                else w in After(rpm, cs) && After(rpm, cs)[w].n == Hits(cs, w) &&
                     (After(rpm, cs)[w].expiry.At? ==> After(rpm, cs)[w].expiry.t >= (w + 2) as real * MINUTE)
      {
        assert w in store ==> Hits(before, w) > 0;
        assert v in store ==> Live(store, v, c.at);
      }
    }
  }

  /** Exactly min(rpm, hits) of the counted calls of a window are allowed, and every call whose increment
      failed is: a failure admits one request beyond the limit and no more. */
  lemma {:induction false} AllowedExactly(rpm: int, cs: seq<Call>, w: int)
    requires rpm > 0 && Trace(cs)
    ensures Allowed(rpm, cs, w) == Min(rpm, Hits(cs, w)) + Failures(cs, w)
  {
    if cs != [] {
      var before, c := cs[..|cs| - 1], cs[|cs| - 1];
      AllowedExactly(rpm, before, w);
      CountersAreHits(rpm, before);
      WindowBounds(c.stamp);
      var v := Window(c.stamp);
      assert v in After(rpm, before) <==> Hits(before, v) > 0;
      assert v in After(rpm, before) ==> Live(After(rpm, before), v, c.at);
    }
  }

  // ----- any sixty seconds -----

  predicate StampedIn(c: Call, a: real) { a <= c.stamp < a + MINUTE }

  function AllowedWithin(rpm: int, cs: seq<Call>, a: real): nat {
    if cs == [] then 0
    else AllowedWithin(rpm, cs[..|cs| - 1], a) +
         if StampedIn(cs[|cs| - 1], a) && LastAllowed(rpm, cs) && !cs[|cs| - 1].answer.IncrFails? then 1 else 0
  }

  function FailuresWithin(cs: seq<Call>, a: real): nat {
    if cs == [] then 0
    else FailuresWithin(cs[..|cs| - 1], a) +
         if StampedIn(cs[|cs| - 1], a) && cs[|cs| - 1].answer.IncrFails? then 1 else 0
  }

  function AllAllowedWithin(rpm: int, cs: seq<Call>, a: real): nat {
    if cs == [] then 0
    else AllAllowedWithin(rpm, cs[..|cs| - 1], a) +
         if StampedIn(cs[|cs| - 1], a) && LastAllowed(rpm, cs) then 1 else 0
  }

  lemma TwoWindows(c: Call, a: real)
    requires StampedIn(c, a)
    ensures Window(c.stamp) == Window(a) || Window(c.stamp) == Window(a) + 1
  {
    WindowBounds(c.stamp);
    WindowBounds(a);
  }

  lemma {:induction false} IntervalSplits(rpm: int, cs: seq<Call>, a: real)
    ensures AllowedWithin(rpm, cs, a) + Failures(cs, Window(a)) + Failures(cs, Window(a) + 1)
              <= Allowed(rpm, cs, Window(a)) + Allowed(rpm, cs, Window(a) + 1)
    ensures AllAllowedWithin(rpm, cs, a) == AllowedWithin(rpm, cs, a) + FailuresWithin(cs, a)
  {
    if cs != [] {
      IntervalSplits(rpm, cs[..|cs| - 1], a);
      if StampedIn(cs[|cs| - 1], a) {
        TwoWindows(cs[|cs| - 1], a);
      }
    }
  }

  /** In any sixty seconds at most twice the limit is admitted, plus one for every failed increment in
      that time. */
  lemma AnyMinuteBounded(rpm: int, cs: seq<Call>, a: real)
    requires rpm > 0 && Trace(cs)
    ensures AllAllowedWithin(rpm, cs, a) <= 2 * rpm + FailuresWithin(cs, a)
  {
    IntervalSplits(rpm, cs, a);
    AllowedExactly(rpm, cs, Window(a));
    AllowedExactly(rpm, cs, Window(a) + 1);
  }

  /** The sixty seconds are a minute of the clock. */
  predicate OnTheMinute(a: real) { a == Window(a) as real * MINUTE }

  function Turn(a: real): real { (Window(a) + 1) as real * MINUTE }

  lemma WindowOf(now: real, w: int)
    requires w as real * MINUTE <= now < (w + 1) as real * MINUTE
    ensures Window(now) == w
  {
    WindowBounds(now);
    assert Window(now) < w + 1 && w < Window(now) + 1;
  }

  lemma StampedOnTheMinute(c: Call, a: real)
    requires OnTheMinute(a)
    ensures StampedIn(c, a) <==> Window(c.stamp) == Window(a)
  {
    WindowBounds(c.stamp);
    WindowBounds(a);
    if StampedIn(c, a) {
      WindowOf(c.stamp, Window(a));
    }
  }

  /** A minute of the clock is one window. */
  lemma {:induction false} MinuteIsWindow(rpm: int, cs: seq<Call>, a: real)
    requires OnTheMinute(a)
    ensures AllAllowedWithin(rpm, cs, a) == Allowed(rpm, cs, Window(a))
    ensures FailuresWithin(cs, a) == Failures(cs, Window(a))
  {
    if cs != [] {
      MinuteIsWindow(rpm, cs[..|cs| - 1], a);
      StampedOnTheMinute(cs[|cs| - 1], a);
    }
  }

  function CallAt(i: nat, rpm: nat, a: real): Call {
    var now := if i < rpm then a else Turn(a);
    Call(now, now, Served(now + TTL))
  }

  /** A full limit at the start of the sixty seconds, and another when the minute turns. */
  function TwoBursts(rpm: nat, a: real, k: nat): (cs: seq<Call>)
    ensures |cs| == k && forall i | 0 <= i < k :: cs[i] == CallAt(i, rpm, a)
  {
    seq(k, (i: nat) => CallAt(i, rpm, a))
  }

  lemma TwoBurstsTrace(rpm: nat, a: real, k: nat)
    ensures Trace(TwoBursts(rpm, a, k))
  {
    WindowBounds(a);
  }

  lemma TurnIsNext(a: real)
    ensures Window(Turn(a)) == Window(a) + 1 && a < Turn(a)
    ensures !OnTheMinute(a) ==> Turn(a) < a + MINUTE
  {
    WindowBounds(a);
    WindowOf(Turn(a), Window(a) + 1);
  }

  /** One more call of the bursts is allowed as long as its window has room. */
  lemma BurstGoesOn(rpm: nat, a: real, k: nat)
    requires 0 < rpm && k < 2 * rpm
    requires Hits(TwoBursts(rpm, a, k), Window(a)) == Min(k, rpm)
    requires Hits(TwoBursts(rpm, a, k), Window(a) + 1) == k - Min(k, rpm)
    ensures Consume(After(rpm, TwoBursts(rpm, a, k)), rpm, CallAt(k, rpm, a)).1
  {
    var cs := TwoBursts(rpm, a, k);
    TwoBurstsTrace(rpm, a, k);
    CountersAreHits(rpm, cs);
    TurnIsNext(a);
    var v := Window(CallAt(k, rpm, a).stamp);
    assert v in After(rpm, cs) ==> After(rpm, cs)[v].n == Hits(cs, v) && Hits(cs, v) < rpm;
  }

  /** What one more allowed call adds to the counts. */
  lemma OneMoreCall(rpm: nat, before: seq<Call>, c: Call, cs: seq<Call>, a: real, w: int)
    requires cs == before + [c] && c.answer.Served? && Consume(After(rpm, before), rpm, c).1
    ensures Hits(cs, w) == Hits(before, w) + if Window(c.stamp) == w then 1 else 0
    ensures StampedIn(c, a) ==> AllAllowedWithin(rpm, cs, a) == AllAllowedWithin(rpm, before, a) + 1
    ensures FailuresWithin(cs, a) == FailuresWithin(before, a)
  {
    assert cs[..|cs| - 1] == before;
  }

  lemma BurstCallAt(rpm: nat, a: real, i: nat)
    requires OnTheMinute(a) ==> i < rpm
    ensures var c := CallAt(i, rpm, a);
      StampedIn(c, a) && Window(c.stamp) == if i < rpm then Window(a) else Window(a) + 1
  {
    TurnIsNext(a);
  }

  lemma {:induction false} TwoBurstsAllowed(rpm: nat, a: real, k: nat)
    requires 0 < rpm && k <= 2 * rpm && (OnTheMinute(a) ==> k <= rpm)
    ensures Hits(TwoBursts(rpm, a, k), Window(a)) == Min(k, rpm)
    ensures Hits(TwoBursts(rpm, a, k), Window(a) + 1) == k - Min(k, rpm)
    ensures AllAllowedWithin(rpm, TwoBursts(rpm, a, k), a) == k && FailuresWithin(TwoBursts(rpm, a, k), a) == 0
  {
    if k > 0 {
      var before, c := TwoBursts(rpm, a, k - 1), CallAt(k - 1, rpm, a);
      var cs := TwoBursts(rpm, a, k);
      assert cs == before + [c];
      TwoBurstsAllowed(rpm, a, k - 1);
      BurstGoesOn(rpm, a, k - 1);
      BurstCallAt(rpm, a, k - 1);
      OneMoreCounted(rpm, a, before, c, cs, k - 1);
    }
  }

  lemma OneMoreCounted(rpm: nat, a: real, before: seq<Call>, c: Call, cs: seq<Call>, k: nat)
    requires cs == before + [c] && c.answer.Served? && Consume(After(rpm, before), rpm, c).1 && StampedIn(c, a)
    requires Window(c.stamp) == if k < rpm then Window(a) else Window(a) + 1
    requires Hits(before, Window(a)) == Min(k, rpm) && Hits(before, Window(a) + 1) == k - Min(k, rpm)
    requires AllAllowedWithin(rpm, before, a) == k && FailuresWithin(before, a) == 0
    ensures Hits(cs, Window(a)) == Min(k + 1, rpm) && Hits(cs, Window(a) + 1) == k + 1 - Min(k + 1, rpm)
    ensures AllAllowedWithin(rpm, cs, a) == k + 1 && FailuresWithin(cs, a) == 0
  {
    OneMoreCall(rpm, before, c, cs, a, Window(a));
    OneMoreCall(rpm, before, c, cs, a, Window(a) + 1);
  }

  /** Not more than x requests, beyond the failed increments, are ever admitted in the sixty seconds from a on. */
  ghost predicate MinuteAllows(rpm: int, a: real, x: int) {
    forall cs | Trace(cs) :: AllAllowedWithin(rpm, cs, a) <= x + FailuresWithin(cs, a)
  }

  /** The limit in sixty seconds is rpm if they are a minute of the clock and twice that if they are not;
      neither figure can be lowered. */
  lemma MinuteBoundExactly(rpm: nat, a: real, x: int)
    requires rpm > 0
    ensures MinuteAllows(rpm, a, x) <==> (if OnTheMinute(a) then rpm else 2 * rpm) <= x
  {
    var bound := if OnTheMinute(a) then rpm else 2 * rpm;
    if bound <= x {
      forall cs | Trace(cs) ensures AllAllowedWithin(rpm, cs, a) <= x + FailuresWithin(cs, a) {
        if OnTheMinute(a) {
          MinuteIsWindow(rpm, cs, a);
          AllowedExactly(rpm, cs, Window(a));
        } else {
          AnyMinuteBounded(rpm, cs, a);
        }
      }
    } else {
      var cs := TwoBursts(rpm, a, bound);
      TwoBurstsTrace(rpm, a, bound);
      TwoBurstsAllowed(rpm, a, bound);
      assert AllAllowedWithin(rpm, cs, a) > x + FailuresWithin(cs, a);
    }
  }

  /** "At most rpm in any sixty seconds" holds exactly for the minutes of the clock, not for a sliding one. */
  lemma SlidingLimitExactly(rpm: nat, a: real)
    requires rpm > 0
    ensures MinuteAllows(rpm, a, rpm) <==> OnTheMinute(a)
  {
    MinuteBoundExactly(rpm, a, rpm);
  }

  /** Whenever the sixty seconds are not a minute of the clock, twice as many requests can be admitted. */
  lemma TwiceTheLimitIsReached(rpm: nat, a: real)
    requires rpm > 0 && !OnTheMinute(a)
    ensures exists cs :: Trace(cs) && AllAllowedWithin(rpm, cs, a) == 2 * rpm
  {
    TwoBurstsAllowed(rpm, a, 2 * rpm);
    TwoBurstsTrace(rpm, a, 2 * rpm);
  }

  // ----- how late a call may reach the store -----

  ghost predicate LimitHolds(delay: real) {
    forall rpm, cs, w | rpm > 0 && Ordered(cs) && Within(cs, delay) :: Allowed(rpm, cs, w) <= rpm + Failures(cs, w)
  }

  /** Two requests of one window, the second of which reaches the store after the first one's counter has
      expired. */
  function Straggler(late: real): seq<Call> {
    [Call(0.0, 0.0, Served(TTL)), Call(MINUTE - late, TTL, Served(TTL + TTL))]
  }

  lemma StragglerAllowed(late: real)
    requires 0.0 < late <= MINUTE
    ensures Allowed(1, Straggler(late), 0) == 2 && Failures(Straggler(late), 0) == 0
  {
    var cs := Straggler(late);
    var first := [cs[0]];
    WindowBounds(0.0);
    WindowBounds(MINUTE - late);
    assert Window(0.0) == 0 && Window(MINUTE - late) == 0;
    assert cs[..1] == first && first[..0] == [];
    assert After(1, first) == map[0 := Counter(1, At(TTL))];
    assert cs[..|cs| - 1] == first && first[..|first| - 1] == [];
    assert LastAllowed(1, first) && Allowed(1, first, 0) == 1 && Failures(first, 0) == 0;
    assert !Live(After(1, first), 0, TTL) && LastAllowed(1, cs);
  }

  /** The limit of a window holds on every trace exactly if no call takes more than sixty seconds to reach the
      store, the difference between the time to live and the window. */
  lemma LimitHoldsExactly(delay: real)
    requires delay >= 0.0
    ensures LimitHolds(delay) <==> delay <= MINUTE
  {
    if delay <= MINUTE {
      forall rpm, cs, w | rpm > 0 && Ordered(cs) && Within(cs, delay)
        ensures Allowed(rpm, cs, w) <= rpm + Failures(cs, w)
      {
        AllowedExactly(rpm, cs, w);
      }
    } else {
      var late := if delay - MINUTE < MINUTE then delay - MINUTE else MINUTE;
      StragglerAllowed(late);
      var cs := Straggler(late);
      assert Ordered(cs) && Within(cs, delay);
      assert Allowed(1, cs, 0) > 1 + Failures(cs, 0);
    }
  }

  // ----- the two implementations -----

  class GatewayRateLimiter {
    var store: Store

    /** A counter that exists has counted something. */
    ghost predicate Valid()
      reads this
    {
      forall w | w in store :: store[w].n > 0
    }

    constructor ()
      ensures store == map[] && Valid()
    {
      store := map[];
    }

    /** Redis: an increment creates the counter if it is missing or has expired, and keeps its expiry
        otherwise; only a counter that is new gets one.  Every error lets the request through. */
    method ConsumeRateLimit(rpm: int, c: Call) returns (allowed: bool)
      requires Valid()
      modifies this
      ensures Valid()
      ensures (store, allowed) == Consume(old(store), rpm, c)
    {
      if rpm <= 0 {
        return true;
      }
      if c.answer.IncrFails? {
        return true;
      }
      var window := Window(c.stamp);
      var n := 1;
      if Live(store, window, c.at) {
        n := store[window].n + 1;
        store := store[window := store[window].(n := n)];
      } else {
        store := store[window := Counter(1, Never)];
      }
      if n == 1 && c.answer.Served? {
        store := store[window := store[window].(expiry := At(c.answer.deadline))];
      }
      assert n == 1 ==> store == old(store)[window := Counter(1, if c.answer.Served? then At(c.answer.deadline) else Never)];
      return n <= rpm;
    }
  }

  class DjangoRateLimiter {
    var cache: Store

    constructor ()
      ensures cache == map[]
    {
      cache := map[];
    }

    /** Django's cache: incrementing a missing or expired key raises, and the key is then added with its
        time to live.  On calls that do not overlap this decides like the gateway. */
    method ConsumeRateLimit(rpm: int, stamp: real, at: real) returns (allowed: bool)
      modifies this
      ensures (cache, allowed) == Consume(old(cache), rpm, Call(stamp, at, Served(at + TTL)))
    {
      if rpm <= 0 {
        return true;
      }
      var key := Window(stamp);
      var n: nat;
      if Live(cache, key, at) {
        n := cache[key].n + 1;
        cache := cache[key := cache[key].(n := n)];
      } else {
        cache := cache[key := Counter(1, At(at + TTL))];
        n := 1;
      }
      return n <= rpm;
    }
  }
}
