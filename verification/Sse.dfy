/** Incremental framing of a server-sent event stream with LF line ends, a subset of section 9.2.5 of
    the WHATWG HTML Living Standard: the server's counter splits off one event at a time, the
    browser splits everything and keeps the last part. */
module Sse {
  import opened Text
  import Utf8

  // ----- framing -----

  /** Position of the first blank-line separator, or the length. */
  function FirstGap(t: string): (i: nat)
    ensures i <= |t|
    ensures i < |t| ==> i + 1 < |t| && t[i] == '\n' && t[i + 1] == '\n'
    ensures forall j | 0 <= j < i && j + 1 < |t| :: !(t[j] == '\n' && t[j + 1] == '\n')
  {
    if |t| < 2 then |t| else if t[0] == '\n' && t[1] == '\n' then 0 else 1 + FirstGap(t[1..])
  }

  /** The complete events of a text, and what is left after the last separator. */
  function Frame(t: string): (seq<string>, string)
    decreases |t|
  {
    var i := FirstGap(t);
    if i == |t| then ([], t)
    else
      var (events, rest) := Frame(t[i + 2..]);
      ([t[..i]] + events, rest)
  }

  lemma GapStays(a: string, b: string)
    requires FirstGap(a) < |a|
    ensures FirstGap(a + b) == FirstGap(a)
  {
    var i, j := FirstGap(a), FirstGap(a + b);
    assert (a + b)[i] == '\n' && (a + b)[i + 1] == '\n';
    assert j <= i;
    assert (a + b)[j] == a[j] && (a + b)[j + 1] == a[j + 1];
  }

  /** The first event, and the rest framed on its own. */
  lemma FrameStep(t: string, i: nat, tail: string)
    requires i == FirstGap(t) < |t| && tail == t[i + 2..]
    ensures Frame(t).0 == [t[..i]] + Frame(tail).0 && Frame(t).1 == Frame(tail).1
  {
    assert Frame(t) == ([t[..i]] + Frame(tail).0, Frame(tail).1);
  }

  lemma Regroup<T>(x: seq<T>, y: seq<T>, z: seq<T>)
    ensures x + (y + z) == (x + y) + z
  {
  }

  /** Framing a text in two parts, carrying over what is left of the first, is framing it whole. */
  lemma {:induction false} FrameSplits(a: string, b: string)
    ensures Frame(a + b).0 == Frame(a).0 + Frame(Frame(a).1 + b).0
    ensures Frame(a + b).1 == Frame(Frame(a).1 + b).1
    decreases |a|
  {
    var i := FirstGap(a);
    if i < |a| {
      var tail := a[i + 2..];
      GapStays(a, b);
      assert (a + b)[..i] == a[..i] && (a + b)[i + 2..] == tail + b;
      FrameStep(a + b, i, tail + b);
      FrameStep(a, i, tail);
      FrameSplits(tail, b);
      Regroup([a[..i]], Frame(tail).0, Frame(Frame(tail).1 + b).0);
    } else {
      assert [] + Frame(a + b).0 == Frame(a + b).0;
    }
  }

  function Concat(pieces: seq<string>): string {
    if pieces == [] then "" else Concat(pieces[..|pieces| - 1]) + pieces[|pieces| - 1]
  }

  /** Feeding pieces one after the other: all events so far, and the buffer. */
  function FeedAll(pieces: seq<string>): (seq<string>, string) {
    if pieces == [] then ([], "")
    else
      var (es, r) := FeedAll(pieces[..|pieces| - 1]);
      var (fs, s) := Frame(r + pieces[|pieces| - 1]);
      (es + fs, s)
  }

  /** Framing does not depend on how the network cut the stream. */
  lemma {:induction false} FramingIgnoresCuts(pieces: seq<string>)
    ensures FeedAll(pieces) == Frame(Concat(pieces))
  {
    if pieces != [] {
      FramingIgnoresCuts(pieces[..|pieces| - 1]);
      FrameSplits(Concat(pieces[..|pieces| - 1]), pieces[|pieces| - 1]);
    }
  }

  /** A text in which no separator begins. */
  predicate Gapless(t: string) { forall i | 0 <= i && i + 1 < |t| :: !(t[i] == '\n' && t[i + 1] == '\n') }

  function JoinEvents(events: seq<string>, rest: string): string {
    if events == [] then rest else events[0] + "\n\n" + JoinEvents(events[1..], rest)
  }

  ghost predicate CutAtGaps(t: string, events: seq<string>, rest: string) {
    && JoinEvents(events, rest) == t
    && (forall k | 0 <= k < |events| :: Gapless(events[k] + "\n"))
    && Gapless(rest)
  }

  /** Framing takes nothing away but the separators, and cuts at every one of them, from the left: no separator
      begins in an event, not even with its last character, and none in what is left. */
  lemma {:induction false} FrameExactly(t: string)
    ensures CutAtGaps(t, Frame(t).0, Frame(t).1)
    decreases |t|
  {
    var i := FirstGap(t);
    if i < |t| {
      var tail := t[i + 2..];
      FrameExactly(tail);
      FrameStep(t, i, tail);
      OneCutMore(t, i, Frame(tail).0, Frame(tail).1);
    }
  }

  lemma JoinOneMore(event: string, events: seq<string>, rest: string)
    ensures JoinEvents([event] + events, rest) == event + "\n\n" + JoinEvents(events, rest)
  {
    assert ([event] + events)[1..] == events;
  }

  lemma GapBetween(t: string, i: nat)
    requires i == FirstGap(t) < |t|
    ensures t == t[..i] + "\n\n" + t[i + 2..]
  {
    GapIs(t, i);
    ThreeParts(t, i, i + 2);
  }

  lemma GapIs(t: string, i: nat)
    requires i + 1 < |t| && t[i] == '\n' && t[i + 1] == '\n'
    ensures t[i..i + 2] == "\n\n"
  {
  }

  lemma ThreeParts(t: string, i: nat, j: nat)
    requires i <= j <= |t|
    ensures t == t[..i] + t[i..j] + t[j..]
  {
  }

  lemma OneCutMore(t: string, i: nat, events: seq<string>, rest: string)
    requires i == FirstGap(t) < |t| && CutAtGaps(t[i + 2..], events, rest)
    ensures CutAtGaps(t, [t[..i]] + events, rest)
  {
    FirstEventExactly(t, i);
    GapBetween(t, i);
    JoinOneMore(t[..i], events, rest);
  }

  lemma FirstEventExactly(t: string, i: nat)
    requires i == FirstGap(t) < |t|
    ensures Gapless(t[..i] + "\n")
  {
    assert t[..i] + "\n" == t[..i + 1];
  }

  // ----- the browser splits everything at once -----

  /** split("\n\n"): the part from start on, cut at every separator found from i on. */
  function SplitAll(t: string, start: nat, i: nat): (parts: seq<string>)
    requires start <= i <= |t|
    ensures parts != []
    decreases |t| - i
  {
    if i + 1 >= |t| then [t[start..]]
    else if t[i] == '\n' && t[i + 1] == '\n' then [t[start..i]] + SplitAll(t, i + 2, i + 2)
    else SplitAll(t, start, i + 1)
  }

  lemma GapInside(t: string, start: nat, g: nat)
    requires start <= |t| && g == start + FirstGap(t[start..])
    ensures g < |t| ==> g + 1 < |t| && t[g] == '\n' && t[g + 1] == '\n'
    ensures forall j | start <= j < g && j + 1 < |t| :: !(t[j] == '\n' && t[j + 1] == '\n')
  {
    var rest := t[start..];
    forall j | start <= j < g && j + 1 < |t| ensures !(t[j] == '\n' && t[j + 1] == '\n') {
      assert rest[j - start] == t[j] && rest[j - start + 1] == t[j + 1];
    }
  }

  /** The scan passes over everything before the first separator. */
  lemma {:induction false} ScanToGap(t: string, start: nat, i: nat, g: nat)
    requires start <= i <= g <= |t|
    requires g < |t| ==> g + 1 < |t| && t[g] == '\n' && t[g + 1] == '\n'
    requires forall j | start <= j < g && j + 1 < |t| :: !(t[j] == '\n' && t[j + 1] == '\n')
    ensures SplitAll(t, start, i) == if g == |t| then [t[start..]] else [t[start..g]] + SplitAll(t, g + 2, g + 2)
    decreases g - i
  {
    if i < g && i + 1 < |t| {
      ScanToGap(t, start, i + 1, g);
    }
  }

  lemma NoMoreGaps(t: string, start: nat)
    requires start <= |t| && FirstGap(t[start..]) == |t| - start
    ensures SplitAll(t, start, start) == [t[start..]] && Frame(t[start..]) == ([], t[start..])
  {
    GapInside(t, start, |t|);
    ScanToGap(t, start, start, |t|);
  }

  lemma NextPart(t: string, start: nat, g: nat)
    requires start <= |t| && g == start + FirstGap(t[start..]) < |t|
    ensures g + 2 <= |t| && SplitAll(t, start, start) == [t[start..g]] + SplitAll(t, g + 2, g + 2)
  {
    GapInside(t, start, g);
    ScanToGap(t, start, start, g);
  }

  lemma NextEvent(t: string, start: nat, g: nat)
    requires start <= |t| && g == start + FirstGap(t[start..]) < |t|
    ensures g + 2 <= |t|
    ensures Frame(t[start..]).0 == [t[start..g]] + Frame(t[g + 2..]).0 && Frame(t[start..]).1 == Frame(t[g + 2..]).1
  {
    var rest, i := t[start..], g - start;
    assert rest[i + 2..] == t[g + 2..];
    assert rest[..i] == t[start..g];
    FrameStep(rest, i, t[g + 2..]);
  }

  lemma InFront<T>(all: seq<T>, rest: seq<T>, x: seq<T>, y: seq<T>, z: seq<T>)
    requires all == x + rest && rest == y + z
    ensures all == x + y + z
  {
  }

  /** The parts before the last are the complete events, and the last part is what is left. */
  lemma {:induction false} SplitAllIsFrame(t: string, start: nat)
    requires start <= |t|
    ensures SplitAll(t, start, start) == Frame(t[start..]).0 + [Frame(t[start..]).1]
    decreases |t| - start
  {
    var i := FirstGap(t[start..]);
    if i == |t| - start {
      NoMoreGaps(t, start);
    } else {
      var g := start + i;
      NextPart(t, start, g);
      NextEvent(t, start, g);
      SplitAllIsFrame(t, g + 2);
      InFront(SplitAll(t, start, start), SplitAll(t, g + 2, g + 2), [t[start..g]], Frame(t[g + 2..]).0, [Frame(t[g + 2..]).1]);
    }
  }

  // ----- what an event says -----

  /** A data line after JSON parsing: not usable, or the completion tokens it reports (zero or less when
      it reports none) and the lengths of the content pieces it carries. */
  datatype Payload = Unusable | Usable(reported: int, contents: seq<nat>)

  function Lines(t: string, start: nat, i: nat): seq<string>
    requires start <= i <= |t|
    decreases |t| - i
  {
    if i == |t| then [t[start..]]
    else if t[i] == '\n' then [t[start..i]] + Lines(t, i + 1, i + 1)
    else Lines(t, start, i + 1)
  }

  function DataLine(line: string, parse: string -> Payload): Payload {
    if |line| < 5 || line[..5] != "data:" then Unusable
    else
      var payload := Strip(line[5..]);
      if payload == "[DONE]" then Unusable else parse(payload)
  }

  function Sum(ns: seq<nat>): nat {
    if ns == [] then 0 else Sum(ns[..|ns| - 1]) + ns[|ns| - 1]
  }

  /** A reported count raises the estimate to four characters a token; content then adds its length. */
  function AddPayload(chars: nat, p: Payload): nat {
    match p
    case Unusable => chars
    case Usable(reported, contents) =>
      (if reported > 0 && reported * 4 > chars then reported * 4 else chars) + Sum(contents)
  }

  function Count(chars: nat, ps: seq<Payload>): nat {
    if ps == [] then chars else AddPayload(Count(chars, ps[..|ps| - 1]), ps[|ps| - 1])
  }

  function PayloadsOf(lines: seq<string>, parse: string -> Payload): seq<Payload> {
    if lines == [] then [] else PayloadsOf(lines[..|lines| - 1], parse) + [DataLine(lines[|lines| - 1], parse)]
  }

  function EventPayloads(event: string, parse: string -> Payload): seq<Payload> {
    PayloadsOf(Lines(event, 0, 0), parse)
  }

  function AllPayloads(events: seq<string>, parse: string -> Payload): seq<Payload> {
    if events == [] then []
    else AllPayloads(events[..|events| - 1], parse) + EventPayloads(events[|events| - 1], parse)
  }

  // ----- what is in an event -----

  function JoinLines(lines: seq<string>): string {
    if lines == [] then "" else if |lines| == 1 then lines[0] else lines[0] + "\n" + JoinLines(lines[1..])
  }

  predicate OneLine(line: string) { '\n' !in line }

  /** The lines of a text contain no line end, and joined by line ends they are the text. */
  lemma {:induction false} LinesExactly(t: string, start: nat, i: nat)
    requires start <= i <= |t| && forall j | start <= j < i :: t[j] != '\n'
    ensures forall k | 0 <= k < |Lines(t, start, i)| :: OneLine(Lines(t, start, i)[k])
    ensures JoinLines(Lines(t, start, i)) == t[start..] && Lines(t, start, i) != []
    decreases |t| - i
  {
    if i < |t| {
      if t[i] == '\n' {
        LinesExactly(t, i + 1, i + 1);
        LineAhead(t, start, i);
      } else {
        LinesExactly(t, start, i + 1);
      }
    }
  }

  lemma LineAhead(t: string, start: nat, i: nat)
    requires start <= i < |t| && t[i] == '\n' && Lines(t, i + 1, i + 1) != []
    requires JoinLines(Lines(t, i + 1, i + 1)) == t[i + 1..]
    ensures JoinLines(Lines(t, start, i)) == t[start..]
  {
    var rest := Lines(t, i + 1, i + 1);
    assert ([t[start..i]] + rest)[1..] == rest;
    assert t[start..] == t[start..i] + "\n" + t[i + 1..];
  }

  lemma {:induction false} SingleLine(t: string, i: nat)
    requires OneLine(t) && i <= |t|
    ensures Lines(t, 0, i) == [t]
    decreases |t| - i
  {
    if i < |t| {
      assert t[i] in t;
      SingleLine(t, i + 1);
    } else {
      assert t[0..] == t;
    }
  }

  /** A line counts exactly if it begins with "data:" and is not the end mark: then it is parsed, without the
      prefix and the whitespace around the rest. */
  lemma DataLineExactly(line: string, parse: string -> Payload)
    ensures (exists p: string :: line == "data:" + p && Strip(p) != "[DONE]" && DataLine(line, parse) == parse(Strip(p)))
            || ((forall p: string :: line == "data:" + p ==> Strip(p) == "[DONE]") && DataLine(line, parse) == Unusable)
  {
    if |line| >= 5 && line[..5] == "data:" {
      assert line == "data:" + line[5..];
    }
    forall p: string | line == "data:" + p ensures p == line[5..] {
    }
  }

  /** Lines that do not count leave the count alone. */
  lemma {:induction false} SilentLines(lines: seq<string>, parse: string -> Payload, chars: nat)
    requires forall k | 0 <= k < |lines| :: forall p: string :: lines[k] == "data:" + p ==> Strip(p) == "[DONE]"
    ensures Count(chars, PayloadsOf(lines, parse)) == chars
  {
    if lines != [] {
      SilentLines(lines[..|lines| - 1], parse, chars);
      DataLineExactly(lines[|lines| - 1], parse);
    }
  }

  lemma {:induction false} CountOn(ps: seq<Payload>, qs: seq<Payload>)
    ensures Count(0, ps + qs) == Count(Count(0, ps), qs)
  {
    if qs == [] {
      assert ps + qs == ps;
    } else {
      var front := qs[..|qs| - 1];
      assert (ps + qs)[..|ps + qs| - 1] == ps + front;
      CountOn(ps, front);
    }
  }

  /** An event without a data line, or only with the end mark, leaves the count alone. */
  lemma SilentEvent(events: seq<string>, event: string, parse: string -> Payload)
    requires forall k | 0 <= k < |Lines(event, 0, 0)| ::
               forall p: string :: Lines(event, 0, 0)[k] == "data:" + p ==> Strip(p) == "[DONE]"
    ensures Count(0, AllPayloads(events + [event], parse)) == Count(0, AllPayloads(events, parse))
  {
    OneEventMore(events, event, parse);
    CountOn(AllPayloads(events, parse), EventPayloads(event, parse));
    SilentLines(Lines(event, 0, 0), parse, Count(0, AllPayloads(events, parse)));
  }

  lemma DataPayload(p: string, parse: string -> Payload)
    requires OneLine(p) && Strip(p) != "[DONE]"
    ensures EventPayloads("data:" + p, parse) == [parse(Strip(p))]
  {
    var line := "data:" + p;
    assert OneLine(line);
    SingleLine(line, 0);
    assert line[..5] == "data:" && line[5..] == p;
    var lines := [line];
    assert lines[..0] == [];
    assert PayloadsOf(lines, parse) == [DataLine(line, parse)];
  }

  lemma NoGapInLine(t: string, tail: string)
    requires OneLine(t) && |tail| >= 2 && tail[0] == '\n' && tail[1] == '\n'
    ensures FirstGap(t + tail) == |t|
  {
    var whole := t + tail;
    var i := FirstGap(whole);
    assert whole[|t|] == '\n' && whole[|t| + 1] == '\n';
    assert forall j | 0 <= j < |t| :: whole[j] == t[j] && t[j] in t;
  }

  lemma OneLineFrames(line: string)
    requires OneLine(line)
    ensures Frame(line + "\n\n") == ([line], "")
  {
    var t := line + "\n\n";
    NoGapInLine(line, "\n\n");
    assert t[..|line|] == line && t[|line| + 2..] == "";
    FrameStep(t, |line|, "");
    var empty := "";
    assert FirstGap(empty) == |empty| && Frame(empty) == ([], empty);
    assert [line] + Frame(empty).0 == [line];
  }

  lemma CountOne(chars: nat, p: Payload)
    ensures Count(chars, [p]) == AddPayload(chars, p)
  {
    var ps := [p];
    assert ps[..0] == [];
  }

  /** One data event, fed whole to a counter with nothing left over, is one event, and moves the count as its
      payload says. */
  lemma DataEventCounts(events: seq<string>, p: string, parse: string -> Payload)
    requires OneLine(p) && Strip(p) != "[DONE]"
    ensures Frame("data:" + p + "\n\n") == (["data:" + p], "")
    ensures Count(0, AllPayloads(events + ["data:" + p], parse)) ==
            AddPayload(Count(0, AllPayloads(events, parse)), parse(Strip(p)))
  {
    var line := "data:" + p;
    OneLineFrames(line);
    OneEventMore(events, line, parse);
    DataPayload(p, parse);
    CountOn(AllPayloads(events, parse), [parse(Strip(p))]);
    CountOne(Count(0, AllPayloads(events, parse)), parse(Strip(p)));
  }

  /** What a payload does to the count: a positive report lifts it to four characters a token if it is below,
      any other does nothing, and what content there is then adds its length. */
  lemma PayloadExactly(chars: nat, reported: int, contents: seq<nat>, n: nat)
    ensures AddPayload(chars, Unusable) == chars
    ensures AddPayload(chars, Usable(reported, [])) == if reported > 0 && 4 * reported > chars then 4 * reported else chars
    ensures AddPayload(chars, Usable(reported, contents + [n])) == AddPayload(chars, Usable(reported, contents)) + n
  {
    assert (contents + [n])[..|contents|] == contents;
  }

  // ----- the estimate is never below what was reported or streamed -----

  function Content(ps: seq<Payload>): nat {
    if ps == [] then 0
    else Content(ps[..|ps| - 1]) + if ps[|ps| - 1].Usable? then Sum(ps[|ps| - 1].contents) else 0
  }

  /** The largest positive report, or zero. */
  function Report(ps: seq<Payload>): nat {
    if ps == [] then 0
    else
      var before, p := Report(ps[..|ps| - 1]), ps[|ps| - 1];
      if p.Usable? && p.reported > before then p.reported else before
  }

  lemma {:induction false} ReportIsMax(ps: seq<Payload>, k: nat)
    requires k < |ps| && ps[k].Usable?
    ensures ps[k].reported <= Report(ps)
  {
    if k < |ps| - 1 {
      ReportIsMax(ps[..|ps| - 1], k);
    }
  }

  /** After any payloads the character count is at least the content streamed and at least four times
      every report, and at most the content plus four times the largest report; it never decreases;
      so the token estimate, a quarter of it, is never below any reported usage. */
  lemma {:induction false} EstimateSandwich(ps: seq<Payload>)
    ensures Content(ps) <= Count(0, ps) <= Content(ps) + 4 * Report(ps)
    ensures 4 * Report(ps) <= Count(0, ps)
    ensures forall k | 0 <= k <= |ps| :: Count(0, ps[..k]) <= Count(0, ps)
    ensures forall k | 0 <= k < |ps| && ps[k].Usable? :: ps[k].reported <= Count(0, ps) / 4
  {
    if ps != [] {
      var before := ps[..|ps| - 1];
      EstimateSandwich(before);
      forall k | 0 <= k <= |ps| ensures Count(0, ps[..k]) <= Count(0, ps) {
        if k < |ps| {
          assert before[..k] == ps[..k];
        } else {
          assert ps[..k] == ps;
        }
      }
      forall k | 0 <= k < |ps| && ps[k].Usable? ensures ps[k].reported <= Count(0, ps) / 4 {
        ReportIsMax(ps, k);
      }
    }
  }

  // ----- the server's counter -----

  /** Of the events of a text these have been taken, and this is left to frame. */
  ghost predicate Taken(whole: string, taken: seq<string>, buf: string) {
    Frame(whole) == (taken + Frame(buf).0, Frame(buf).1)
  }

  lemma NothingTaken(whole: string)
    ensures Taken(whole, [], whole)
  {
    assert [] + Frame(whole).0 == Frame(whole).0;
  }

  lemma {:induction false} TakeOne(whole: string, taken: seq<string>, buf: string, i: nat)
    requires Taken(whole, taken, buf) && i == FirstGap(buf) < |buf|
    ensures Taken(whole, taken + [buf[..i]], buf[i + 2..])
  {
    FrameStep(buf, i, buf[i + 2..]);
    Regroup(taken, [buf[..i]], Frame(buf[i + 2..]).0);
  }

  lemma AllTaken(whole: string, taken: seq<string>, buf: string)
    requires Taken(whole, taken, buf) && FirstGap(buf) == |buf|
    ensures Frame(whole) == (taken, buf)
  {
    assert taken + [] == taken;
  }

  lemma {:induction false} OneLineMore(before: seq<Payload>, lines: seq<string>, k: nat, parse: string -> Payload)
    requires k < |lines|
    ensures var seen := before + PayloadsOf(lines[..k], parse);
      Count(0, before + PayloadsOf(lines[..k + 1], parse)) == AddPayload(Count(0, seen), DataLine(lines[k], parse))
  {
    var seen, p := before + PayloadsOf(lines[..k], parse), DataLine(lines[k], parse);
    assert lines[..k + 1][..k] == lines[..k];
    assert before + PayloadsOf(lines[..k + 1], parse) == seen + [p];
    assert (seen + [p])[..|seen|] == seen;
  }

  lemma OneEventMore(events: seq<string>, event: string, parse: string -> Payload)
    ensures AllPayloads(events + [event], parse) == AllPayloads(events, parse) + EventPayloads(event, parse)
  {
    assert (events + [event])[..|events|] == events;
  }

  class SseTokenCounter {
    const parse: string -> Payload
    var buf: string
    var completionChars: nat
    ghost var events: seq<string>

    constructor (parse: string -> Payload)
      ensures this.parse == parse && buf == "" && completionChars == 0 && events == [] && Valid()
    {
      this.parse := parse;
      buf, completionChars, events := "", 0, [];
    }

    /** The count is that of the events consumed so far. */
    ghost predicate Valid()
      reads this
    {
      completionChars == Count(0, AllPayloads(events, parse))
    }

    /** One network chunk, decoded on its own. */
    method Feed(chunk: seq<Utf8.Byte>)
      requires Valid()
      modifies this
      ensures Valid()
      ensures (events, buf) == (old(events) + Frame(old(buf) + Utf8.Decode(chunk)).0, Frame(old(buf) + Utf8.Decode(chunk)).1)
    {
      buf := buf + Utf8.Decode(chunk);
      ghost var whole := buf;
      ghost var taken: seq<string> := [];
      NothingTaken(whole);
      while FirstGap(buf) < |buf|
        invariant Valid() && events == old(events) + taken
        invariant Taken(whole, taken, buf)
        decreases |buf|
      {
        var i := FirstGap(buf);
        var event := buf[..i];
        TakeOne(whole, taken, buf, i);
        buf := buf[i + 2..];
        ConsumeEvent(event);
        taken := taken + [event];
      }
      AllTaken(whole, taken, buf);
    }

    method ConsumeEvent(event: string)
      requires Valid()
      modifies this`completionChars, this`events
      ensures Valid() && events == old(events) + [event]
    {
      var lines := Lines(event, 0, 0);
      ghost var before := AllPayloads(events, parse);
      assert before + PayloadsOf(lines[..0], parse) == before;
      for k := 0 to |lines|
        invariant completionChars == Count(0, before + PayloadsOf(lines[..k], parse))
        invariant events == old(events)
      {
        var p := DataLine(lines[k], parse);
        OneLineMore(before, lines, k, parse);
        if p.Usable? {
          if p.reported > 0 && p.reported * 4 > completionChars {
            completionChars := p.reported * 4;
          }
          completionChars := completionChars + Sum(p.contents);
        }
      }
      assert lines[..|lines|] == lines;
      OneEventMore(events, event, parse);
      events := events + [event];
    }

    method CompletionTokenEstimate() returns (tokens: nat)
      requires Valid()
      ensures tokens == completionChars / 4
      ensures forall k | 0 <= k < |AllPayloads(events, parse)| && AllPayloads(events, parse)[k].Usable? ::
                AllPayloads(events, parse)[k].reported <= tokens
      ensures Content(AllPayloads(events, parse)) / 4 <= tokens
    {
      EstimateSandwich(AllPayloads(events, parse));
      tokens := completionChars / 4;
    }
  }

  /** A fresh counter fed a text's encoding in any pieces cut on character boundaries ends with the
      buffer, the events and the count of the text fed whole. */
  method FeedPieces(pieces: seq<string>, parse: string -> Payload) returns (counter: SseTokenCounter)
    ensures fresh(counter) && counter.parse == parse
    ensures (counter.events, counter.buf) == Frame(Concat(pieces))
    ensures counter.completionChars == Count(0, AllPayloads(Frame(Concat(pieces)).0, parse))
  {
    counter := new SseTokenCounter(parse);
    for k := 0 to |pieces|
      invariant fresh(counter) && counter.parse == parse && counter.Valid()
      invariant (counter.events, counter.buf) == FeedAll(pieces[..k])
    {
      Utf8.RoundTrip(pieces[k]);
      counter.Feed(Utf8.Encode(pieces[k]));
      assert pieces[..k + 1][..k] == pieces[..k];
    }
    assert pieces[..|pieces|] == pieces;
    FramingIgnoresCuts(pieces);
  }

  // ----- the browser's loop -----

  /** What JavaScript's trim takes away: unlike Python's strip, the byte order mark and none of the
      information separators. */
  predicate IsTrimmed(c: char) {
    var n := c as int;
    || 9 <= n <= 13 || n == 32 || n == 0xa0 || n == 0x1680 || 0x2000 <= n <= 0x200a || n == 0x2028 || n == 0x2029
    || n == 0x202f || n == 0x205f || n == 0x3000 || n == 0xfeff
  }

  /** The two differ in exactly these characters. */
  lemma TrimAgainstStrip(c: char)
    ensures IsTrimmed(c) <==> c == MARK || (IsSpace(c) && c as int != 0x85 && !(28 <= c as int <= 31))
  {
  }

  predicate TrimsToNothing(t: string) { forall c | c in t :: IsTrimmed(c) }

  const MARK: char := '\U{FEFF}'

  /** The browser's decoder drops a byte order mark at the start of the stream; the server's keeps it. */
  function WithoutMark(t: string): string {
    if t != "" && t[0] == MARK then t[1..] else t
  }

  lemma GapBehindMark(u: string)
    ensures FirstGap([MARK] + u) == FirstGap(u) + 1
  {
    var t := [MARK] + u;
    assert t[1..] == u;
    if |t| >= 2 {
      assert t[0] != '\n';
    }
  }

  lemma NoGapBehindMark(u: string)
    requires FirstGap(u) == |u|
    ensures Frame([MARK] + u) == ([], [MARK] + u) && Frame(u) == ([], u)
  {
    GapBehindMark(u);
  }

  lemma EventBehindMark(u: string, i: nat, tail: string)
    requires i == FirstGap(u) < |u| && tail == u[i + 2..]
    ensures Frame(u).0 == [u[..i]] + Frame(tail).0 && Frame(u).1 == Frame(tail).1
    ensures Frame([MARK] + u).0 == [[MARK] + u[..i]] + Frame(tail).0 && Frame([MARK] + u).1 == Frame(tail).1
  {
    var t := [MARK] + u;
    GapBehindMark(u);
    assert t[..i + 1] == [MARK] + u[..i];
    assert t[i + 1 + 2..] == tail;
    FrameStep(t, i + 1, tail);
    FrameStep(u, i, tail);
  }

  /** The same events, the first of which has something in front. */
  ghost predicate FirstMarked(events: seq<string>, marked: seq<string>) {
    |marked| == |events| > 0 && marked[0] == [MARK] + events[0] && marked[1..] == events[1..]
  }

  /** What a leading mark does to the server: it stands before the first event, or before the rest if there is
      no complete event yet. */
  lemma MarkStays(u: string)
    ensures Frame(u).0 == [] ==> Frame([MARK] + u) == ([], [MARK] + Frame(u).1)
    ensures Frame(u).0 != [] ==> FirstMarked(Frame(u).0, Frame([MARK] + u).0) && Frame([MARK] + u).1 == Frame(u).1
  {
    var i := FirstGap(u);
    if i == |u| {
      NoGapBehindMark(u);
    } else {
      EventBehindMark(u, i, u[i + 2..]);
    }
  }

  lemma MarkedEvents(u: string)
    ensures Frame(u).0 == Frame([MARK] + u).0 <==> Frame([MARK] + u).0 == []
  {
    var events, marked := Frame(u).0, Frame([MARK] + u).0;
    MarkStays(u);
    if events != [] {
      assert |marked[0]| == |events[0]| + 1;
    }
  }

  /** Server and browser find the same complete events exactly if the stream does not begin with a mark, or has
      no complete event. */
  lemma {:induction false} SameEventsExactly(t: string)
    ensures Frame(WithoutMark(t)).0 == Frame(t).0 <==> (t == "" || t[0] != MARK || Frame(t).0 == [])
  {
    if t != "" && t[0] == MARK {
      var u := t[1..];
      assert [MARK] + u == t;
      MarkedEvents(u);
    }
  }

  class StreamReader {
    var buffer: string
    /** Events handed to the page so far. */
    var parts: seq<string>

    constructor ()
      ensures buffer == "" && parts == []
    {
      buffer, parts := "", [];
    }

    /** One read: the decoder of the browser keeps incomplete characters itself and hands over text. */
    method Read(text: string)
      modifies this
      ensures (parts, buffer) == (old(parts) + Frame(old(buffer) + text).0, Frame(old(buffer) + text).1)
    {
      buffer := buffer + text;
      var split := SplitAll(buffer, 0, 0);
      SplitAllIsFrame(buffer, 0);
      assert buffer[0..] == buffer;
      buffer := split[|split| - 1];
      split := split[..|split| - 1];
      for k := 0 to |split|
        invariant parts == old(parts) + split[..k] && buffer == Frame(old(buffer) + text).1
      {
        parts := parts + [split[k]];
      }
      assert split[..|split|] == split == Frame(old(buffer) + text).0;
    }

    /** End of the stream: an unfinished last event that is not blank is used as well. */
    method Finish()
      modifies this`parts
      ensures parts == old(parts) + if TrimsToNothing(buffer) then [] else [buffer]
    {
      for k := 0 to |buffer|
        invariant parts == old(parts)
        invariant forall j | 0 <= j < k :: IsTrimmed(buffer[j])
      {
        if !IsTrimmed(buffer[k]) {
          parts := parts + [buffer];
          return;
        }
      }
    }
  }

  /** The browser, whose decoder hands over a stream's text in one set of pieces, has the complete events of the
      text without a leading mark; if there is none, these are the events of the server's counter, fed the
      text in any other pieces.  Only the browser also uses an unfinished last event. */
  method ReadPieces(pieces: seq<string>, others: seq<string>) returns (reader: StreamReader)
    requires Concat(pieces) == WithoutMark(Concat(others))
    ensures fresh(reader)
    ensures var (events, rest) := Frame(WithoutMark(Concat(others)));
      reader.buffer == rest && reader.parts == events + if TrimsToNothing(rest) then [] else [rest]
    ensures var (events, rest) := FeedAll(others);
      (Concat(others) == "" || Concat(others)[0] != MARK) ==>
        reader.buffer == rest && reader.parts == events + if TrimsToNothing(rest) then [] else [rest]
  {
    reader := new StreamReader();
    for k := 0 to |pieces|
      invariant fresh(reader) && (reader.parts, reader.buffer) == FeedAll(pieces[..k])
    {
      reader.Read(pieces[k]);
      assert pieces[..k + 1][..k] == pieces[..k];
    }
    assert pieces[..|pieces|] == pieces;
    FramingIgnoresCuts(pieces);
    FramingIgnoresCuts(others);
    reader.Finish();
  }
}
