/** Text as the chunker sees it: whitespace, stripping, and splitting at the matches of its two regular
    expressions.  Ink is what a text says once layout is ignored: its non-whitespace characters. */
module Text {

  /** The characters str.isspace, str.strip and \s agree on. */
  predicate IsSpace(c: char) {
    var n := c as int;
    || 9 <= n <= 13 || 28 <= n <= 32 || n == 0x85 || n == 0xa0 || n == 0x1680
    || 0x2000 <= n <= 0x200a || n == 0x2028 || n == 0x2029 || n == 0x202f || n == 0x205f || n == 0x3000
  }

  function Strip(s: string): string {
    if s == "" then s
    else if IsSpace(s[0]) then Strip(s[1..])
    else if IsSpace(s[|s| - 1]) then Strip(s[..|s| - 1])
    else s
  }

  predicate Stripped(s: string) {
    s == "" || (!IsSpace(s[0]) && !IsSpace(s[|s| - 1]))
  }

  ghost predicate Blank(s: string) {
    forall i | 0 <= i < |s| :: IsSpace(s[i])
  }

  function Ink(s: string): string {
    if s == "" then "" else (if IsSpace(s[0]) then "" else [s[0]]) + Ink(s[1..])
  }

  function InkOf(parts: seq<string>): string {
    if parts == [] then "" else InkOf(parts[..|parts| - 1]) + Ink(parts[|parts| - 1])
  }

  lemma {:induction false} InkConcat(a: string, b: string)
    ensures Ink(a + b) == Ink(a) + Ink(b)
  {
    if a == "" {
      assert a + b == b;
    } else {
      assert (a + b)[1..] == a[1..] + b;
      InkConcat(a[1..], b);
    }
  }

  lemma Assoc(x: string, y: string, z: string)
    ensures x + (y + z) == (x + y) + z
  {
  }

  lemma {:induction false} InkOfConcat(a: seq<string>, b: seq<string>)
    ensures InkOf(a + b) == InkOf(a) + InkOf(b)
  {
    if b == [] {
      assert a + b == a;
    } else {
      var front, last := b[..|b| - 1], b[|b| - 1];
      var all := a + b;
      assert all[..|all| - 1] == a + front && all[|all| - 1] == last;
      InkOfConcat(a, front);
      Assoc(InkOf(a), InkOf(front), Ink(last));
    }
  }

  lemma {:induction false} BlankHasNoInk(s: string)
    requires Blank(s)
    ensures Ink(s) == ""
  {
    if s != "" {
      BlankHasNoInk(s[1..]);
    }
  }

  /** Stripping loses no ink, and leaves nothing exactly when there is no ink. */
  lemma {:induction false} StripKeepsInk(s: string)
    ensures Ink(Strip(s)) == Ink(s) && Stripped(Strip(s)) && |Strip(s)| <= |s|
    ensures Strip(s) == "" <==> Ink(s) == ""
    decreases |s|
  {
    if s != "" {
      if IsSpace(s[0]) {
        StripKeepsInk(s[1..]);
      } else if IsSpace(s[|s| - 1]) {
        var n := |s| - 1;
        StripKeepsInk(s[..n]);
        assert s == s[..n] + [s[n]];
        InkConcat(s[..n], [s[n]]);
      }
    }
  }

  lemma StrippedIsFixed(s: string)
    requires Stripped(s)
    ensures Strip(s) == s
  {
  }

  // ----- splitting -----

  /** The sentence gap (?<=[.!?])\s+ and the blank line \n\s*\n. */
  datatype Separator = SentenceGap | BlankLine

  function SpaceRun(t: string, i: nat): (n: nat)
    requires i <= |t|
    ensures i + n <= |t| && forall j | i <= j < i + n :: IsSpace(t[j])
    ensures i + n == |t| || !IsSpace(t[i + n])
    decreases |t| - i
  {
    if i == |t| || !IsSpace(t[i]) then 0 else 1 + SpaceRun(t, i + 1)
  }

  function LastNewline(t: string, i: nat, end: nat): (k: nat)
    requires i < end <= |t| && t[i] == '\n'
    ensures i <= k < end && t[k] == '\n' && forall j | k < j < end :: t[j] != '\n'
    decreases end
  {
    if t[end - 1] == '\n' then end - 1 else LastNewline(t, i, end - 1)
  }

  /** Length of the separator that matches at position i; zero when none does. */
  function MatchLength(sep: Separator, t: string, i: nat): (n: nat)
    requires i < |t|
    ensures i + n <= |t| && forall j | i <= j < i + n :: IsSpace(t[j])
  {
    match sep
    case SentenceGap =>
      if i > 0 && (t[i - 1] == '.' || t[i - 1] == '!' || t[i - 1] == '?') then SpaceRun(t, i) else 0
    case BlankLine =>
      if t[i] != '\n' then 0
      else
        var k := LastNewline(t, i, i + SpaceRun(t, i));
        if k == i then 0 else k + 1 - i
  }

  lemma InkOfOne(p: string)
    ensures InkOf([p]) == Ink(p)
  {
    assert [p][..0] == [];
  }

  lemma InkOfCons(p: string, rest: seq<string>)
    ensures InkOf([p] + rest) == Ink(p) + InkOf(rest)
  {
    InkOfConcat([p], rest);
    InkOfOne(p);
  }

  lemma {:induction false} BlankPrefix(glue: string, rest: string)
    requires Blank(glue)
    ensures Ink(glue + rest) == Ink(rest)
  {
    if glue == "" {
      assert glue + rest == rest;
    } else {
      assert (glue + rest)[1..] == glue[1..] + rest;
      BlankPrefix(glue[1..], rest);
    }
  }

  /** Cutting a stretch of whitespace out of a text loses no ink. */
  lemma CutKeepsInk(whole: string, front: string, gap: string, rest: string)
    requires whole == front + (gap + rest) && Blank(gap)
    ensures Ink(whole) == Ink(front) + Ink(rest)
  {
    InkConcat(front, gap + rest);
    BlankPrefix(gap, rest);
  }

  lemma MatchIsBlank(sep: Separator, t: string, i: nat)
    requires i < |t|
    ensures Blank(t[i..i + MatchLength(sep, t, i)])
  {
  }

  lemma ThreeParts(t: string, start: nat, i: nat, j: nat)
    requires start <= i <= j <= |t|
    ensures t[start..] == t[start..i] + (t[i..j] + t[j..])
  {
  }

  lemma MatchKeepsInk(sep: Separator, t: string, start: nat, i: nat, n: nat, rest: seq<string>)
    requires start <= i < |t| && n == MatchLength(sep, t, i)
    requires InkOf(rest) == Ink(t[i + n..])
    ensures InkOf([t[start..i]] + rest) == Ink(t[start..])
  {
    MatchIsBlank(sep, t, i);
    InkOfCons(t[start..i], rest);
    ThreeParts(t, start, i, i + n);
    CutKeepsInk(t[start..], t[start..i], t[i..i + n], t[i + n..]);
  }

  /** re.split: the text from start on, cut at the leftmost matches from position i on.  No ink is lost. */
  function SplitFrom(sep: Separator, t: string, start: nat, i: nat): (parts: seq<string>)
    requires start <= i <= |t|
    ensures InkOf(parts) == Ink(t[start..])
    ensures forall k | 0 <= k < |parts| :: |parts[k]| <= |t|
    decreases |t| - i
  {
    if i == |t| then
      InkOfOne(t[start..]);
      [t[start..]]
    else
      var n := MatchLength(sep, t, i);
      if n == 0 then SplitFrom(sep, t, start, i + 1)
      else
        var rest := SplitFrom(sep, t, i + n, i + n);
        MatchKeepsInk(sep, t, start, i, n, rest);
        [t[start..i]] + rest
  }

  // ----- what is split, exactly -----

  /** A separator stands between two positions: whitespace behind the end of a sentence, or whitespace that begins
      and ends with a line end. */
  ghost predicate IsSeparator(sep: Separator, t: string, i: nat, j: nat) {
    && i < j <= |t| && (forall k | i <= k < j :: IsSpace(t[k]))
    && match sep
       case SentenceGap => i > 0 && t[i - 1] in {'.', '!', '?'}
       case BlankLine => j - i >= 2 && t[i] == '\n' && t[j - 1] == '\n'
  }

  ghost predicate IsLongest(sep: Separator, t: string, i: nat, j: nat) {
    IsSeparator(sep, t, i, j) && forall k | j < k <= |t| :: !IsSeparator(sep, t, i, k)
  }

  ghost predicate NoSeparator(sep: Separator, t: string, i: nat) {
    forall j | i < j <= |t| :: !IsSeparator(sep, t, i, j)
  }

  /** A match is the longest separator at its position; there is none exactly if no separator begins there. */
  lemma MatchExactly(sep: Separator, t: string, i: nat)
    requires i < |t|
    ensures var n := MatchLength(sep, t, i); if n == 0 then NoSeparator(sep, t, i) else IsLongest(sep, t, i, i + n)
  {
    match sep
    case SentenceGap => GapExactly(t, i);
    case BlankLine => BlankExactly(t, i);
  }

  lemma GapExactly(t: string, i: nat)
    requires i < |t|
    ensures var n := MatchLength(SentenceGap, t, i);
      if n == 0 then NoSeparator(SentenceGap, t, i) else IsLongest(SentenceGap, t, i, i + n)
  {
    var end := i + SpaceRun(t, i);
    assert end < |t| ==> !IsSpace(t[end]);
  }

  lemma BlankExactly(t: string, i: nat)
    requires i < |t|
    ensures var n := MatchLength(BlankLine, t, i);
      if n == 0 then NoSeparator(BlankLine, t, i) else IsLongest(BlankLine, t, i, i + n)
  {
    var end := i + SpaceRun(t, i);
    assert end < |t| ==> !IsSpace(t[end]);
    assert forall j | i < j <= |t| && IsSeparator(BlankLine, t, i, j) :: j <= end;
  }

  ghost predicate NoneBetween(sep: Separator, t: string, start: nat, end: nat) {
    end <= |t| && forall i | start <= i < end :: NoSeparator(sep, t, i)
  }

  /** The parts and the gaps between them, from start on: no separator begins in a part, and every gap is the
      longest separator that begins where the part before it ends. */
  ghost predicate SplitBy(sep: Separator, t: string, start: nat, parts: seq<string>, gaps: seq<(nat, nat)>)
    decreases |gaps|
  {
    start <= |t| && parts != [] &&
    if gaps == [] then
      parts == [t[start..]] && NoneBetween(sep, t, start, |t|)
    else
      && start <= gaps[0].0 <= |t| && parts[0] == t[start..gaps[0].0]
      && NoneBetween(sep, t, start, gaps[0].0)
      && IsLongest(sep, t, gaps[0].0, gaps[0].1)
      && SplitBy(sep, t, gaps[0].1, parts[1..], gaps[1..])
  }

  lemma SplitHere(sep: Separator, t: string, start: nat, i: nat, next: nat, parts: seq<string>, gaps: seq<(nat, nat)>)
    requires start <= i && NoneBetween(sep, t, start, i) && IsLongest(sep, t, i, next)
    requires SplitBy(sep, t, next, parts, gaps)
    ensures SplitBy(sep, t, start, [t[start..i]] + parts, [(i, next)] + gaps)
  {
    assert ([t[start..i]] + parts)[1..] == parts && ([(i, next)] + gaps)[1..] == gaps;
  }

  lemma MatchStep(sep: Separator, t: string, start: nat, i: nat, next: nat)
    requires start <= i < next <= |t| && next == i + MatchLength(sep, t, i)
    ensures SplitFrom(sep, t, start, i) == [t[start..i]] + SplitFrom(sep, t, next, next)
  {
  }

  lemma NoMatchStep(sep: Separator, t: string, start: nat, i: nat)
    requires start <= i < |t| && MatchLength(sep, t, i) == 0
    ensures SplitFrom(sep, t, start, i) == SplitFrom(sep, t, start, i + 1)
  {
  }

  /** The parts from start on, of which no separator begins before i, are cut out as they should be. */
  ghost predicate WellSplit(sep: Separator, t: string, start: nat, i: nat)
    requires start <= i <= |t|
  {
    exists gaps :: SplitBy(sep, t, start, SplitFrom(sep, t, start, i), gaps)
  }

  lemma SplitEnds(sep: Separator, t: string, start: nat)
    requires start <= |t| && NoneBetween(sep, t, start, |t|)
    ensures WellSplit(sep, t, start, |t|)
  {
    assert SplitBy(sep, t, start, SplitFrom(sep, t, start, |t|), []);
  }

  lemma SplitGoesOn(sep: Separator, t: string, start: nat, i: nat)
    requires start <= i < |t| && MatchLength(sep, t, i) == 0 && WellSplit(sep, t, start, i + 1)
    ensures WellSplit(sep, t, start, i)
  {
    NoMatchStep(sep, t, start, i);
  }

  lemma SplitCuts(sep: Separator, t: string, start: nat, i: nat, next: nat)
    requires start <= i < next <= |t| && next == i + MatchLength(sep, t, i)
    requires NoneBetween(sep, t, start, i) && IsLongest(sep, t, i, next) && WellSplit(sep, t, next, next)
    ensures WellSplit(sep, t, start, i)
  {
    MatchStep(sep, t, start, i, next);
    var gaps :| SplitBy(sep, t, next, SplitFrom(sep, t, next, next), gaps);
    SplitHere(sep, t, start, i, next, SplitFrom(sep, t, next, next), gaps);
  }

  lemma NoneBetweenGrows(sep: Separator, t: string, start: nat, i: nat)
    requires start <= i < |t| && NoneBetween(sep, t, start, i) && NoSeparator(sep, t, i)
    ensures NoneBetween(sep, t, start, i + 1)
  {
  }

  lemma {:induction false} SplitOn(sep: Separator, t: string, start: nat, i: nat)
    requires start <= i <= |t| && NoneBetween(sep, t, start, i)
    ensures WellSplit(sep, t, start, i)
    decreases |t| - i
  {
    if i == |t| {
      SplitEnds(sep, t, start);
    } else {
      MatchExactly(sep, t, i);
      var next := i + MatchLength(sep, t, i);
      if next == i {
        NoneBetweenGrows(sep, t, start, i);
        SplitOn(sep, t, start, i + 1);
        SplitGoesOn(sep, t, start, i);
      } else {
        SplitOn(sep, t, next, next);
        SplitCuts(sep, t, start, i, next);
      }
    }
  }

  /** Splitting cuts out the longest separators, from the left, and nothing else. */
  lemma {:induction false} SplitExactly(sep: Separator, t: string)
    ensures exists gaps :: SplitBy(sep, t, 0, SplitFrom(sep, t, 0, 0), gaps)
  {
    SplitOn(sep, t, 0, 0);
    assert WellSplit(sep, t, 0, 0);
  }

  function StripAll(parts: seq<string>): seq<string> {
    if parts == [] then []
    else
      var last := Strip(parts[|parts| - 1]);
      StripAll(parts[..|parts| - 1]) + if last == "" then [] else [last]
  }

  function Pieces(sep: Separator, t: string): seq<string> { StripAll(SplitFrom(sep, t, 0, 0)) }

  function Sentences(t: string): seq<string> { Pieces(SentenceGap, t) }

  function Paragraphs(t: string): seq<string> { Pieces(BlankLine, t) }

  lemma {:induction false} StripAllKeepsInk(parts: seq<string>)
    ensures InkOf(StripAll(parts)) == InkOf(parts)
  {
    if parts != [] {
      var before, last := StripAll(parts[..|parts| - 1]), Strip(parts[|parts| - 1]);
      StripAllKeepsInk(parts[..|parts| - 1]);
      StripKeepsInk(parts[|parts| - 1]);
      InkOfConcat(before, [last]);
      InkOfOne(last);
      assert before + [] == before;
    }
  }

  lemma {:induction false} StripAllPieces(parts: seq<string>, bound: nat)
    requires forall i | 0 <= i < |parts| :: |parts[i]| <= bound
    ensures Words(StripAll(parts))
    ensures forall i | 0 <= i < |StripAll(parts)| :: |StripAll(parts)[i]| <= bound
  {
    if parts != [] {
      StripAllPieces(parts[..|parts| - 1], bound);
      StripKeepsInk(parts[|parts| - 1]);
    }
  }

  ghost predicate Words(ss: seq<string>) {
    forall i | 0 <= i < |ss| :: ss[i] != "" && Stripped(ss[i])
  }

  /** Splitting into sentences or paragraphs loses no ink; the pieces are stripped, not empty, and no
      longer than the text. */
  lemma {:induction false} PiecesKeepInk(sep: Separator, t: string)
    ensures InkOf(Pieces(sep, t)) == Ink(t) && Words(Pieces(sep, t))
    ensures forall i | 0 <= i < |Pieces(sep, t)| :: |Pieces(sep, t)[i]| <= |t|
  {
    var parts := SplitFrom(sep, t, 0, 0);
    StripAllKeepsInk(parts);
    StripAllPieces(parts, |t|);
    assert t[0..] == t;
  }
}
