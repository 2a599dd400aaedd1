/** How long a chunk can get: an upper bound for every text and setting, and texts that reach it. */
module ChunkSizes {
  import opened Text
  import opened Chunker

  // ----- the bound -----

  ghost predicate Bounded(a: Acc, bound: int) {
    |a.cur| <= bound && forall c | c in a.done :: |c.text| <= bound
  }

  /** What can stand in front of a paragraph that opens a chunk: an overlap and a separator. */
  function Ahead(overlap: int): nat { if overlap <= 0 then 0 else overlap + 2 }

  function LongestChunk(size: int, overlap: int, longest: nat): int {
    Max(size + 1, Ahead(overlap) + longest)
  }

  lemma EmitBounded(a: Acc, bound: int)
    requires Bounded(a, bound)
    ensures forall c | c in Emit(a) :: |c.text| <= bound
  {
    StripKeepsInk(a.cur);
  }

  lemma {:induction false} SentencesBounded(a: Acc, ss: seq<string>, size: int, bound: int)
    requires Bounded(a, bound) && size <= bound && forall i | 0 <= i < |ss| :: |ss[i]| <= bound
    ensures Bounded(AddSentences(a, ss, size), bound)
  {
    if ss != [] {
      SentencesBounded(a, ss[..|ss| - 1], size, bound);
      EmitBounded(AddSentences(a, ss[..|ss| - 1], size), bound);
    }
  }

  lemma {:induction false} ParagraphsBounded(ps: seq<string>, size: int, overlap: int, longest: nat)
    requires Words(ps) && forall i | 0 <= i < |ps| :: |ps[i]| <= longest
    ensures Bounded(AddParagraphs(ps, size, overlap), LongestChunk(size, overlap, longest))
  {
    if ps != [] {
      var before, para := ps[..|ps| - 1], ps[|ps| - 1];
      var bound := LongestChunk(size, overlap, longest);
      ParagraphsBounded(before, size, overlap, longest);
      var a := AddParagraphs(before, size, overlap);
      EmitBounded(a, bound);
      OverlapIsStripped(a.cur, overlap);
      PiecesKeepInk(SentenceGap, para);
      SentencesBounded(a, Sentences(para), size, bound);
    }
  }

  ghost predicate ParagraphsUpTo(text: string, longest: nat) {
    forall i | 0 <= i < |Paragraphs(text)| :: |Paragraphs(text)[i]| <= longest
  }

  /** No chunk is longer than the larger of the size plus one and an overlap, a separator and the longest
      paragraph: a two-character separator is budgeted as one, and a long paragraph after the first is
      never cut. */
  lemma ChunkSizeBounded(text: string, size: int, overlap: int, longest: nat)
    requires ParagraphsUpTo(text, longest)
    ensures forall c | c in Cuts(text, size, overlap) :: |c.text| <= LongestChunk(size, overlap, longest)
  {
    PiecesKeepInk(BlankLine, text);
    ParagraphsBounded(Paragraphs(text), size, overlap, longest);
    EmitBounded(AddParagraphs(Paragraphs(text), size, overlap), LongestChunk(size, overlap, longest));
  }

  // ----- texts made of words -----

  ghost predicate Solid(w: string) {
    w != "" && forall i | 0 <= i < |w| :: !IsSpace(w[i])
  }

  function Word(n: nat): (w: string)
    ensures |w| == n && (n > 0 ==> Solid(w)) && forall i | 0 <= i < n :: w[i] == 'x'
  {
    seq(n, (i: nat) => 'x')
  }

  /** Words as paragraphs of their own. */
  function Spread(ws: seq<string>): string {
    if ws == [] then "" else if |ws| == 1 then ws[0] else ws[0] + "\n\n" + Spread(ws[1..])
  }

  ghost predicate AllSolid(ws: seq<string>) { forall i | 0 <= i < |ws| :: Solid(ws[i]) }

  /** Nothing matches between two positions with no whitespace between them. */
  lemma {:induction false} NoMatchInWord(sep: Separator, t: string, start: nat, i: nat, end: nat)
    requires start <= i <= end <= |t|
    requires forall j | i <= j < end :: !IsSpace(t[j])
    ensures SplitFrom(sep, t, start, i) == SplitFrom(sep, t, start, end)
    decreases end - i
  {
    if i < end {
      assert SpaceRun(t, i) == 0;
      NoMatchInWord(sep, t, start, i + 1, end);
    }
  }

  lemma BlankLineAt(t: string, n: nat)
    requires n + 2 < |t| && t[n] == '\n' && t[n + 1] == '\n' && !IsSpace(t[n + 2])
    ensures MatchLength(BlankLine, t, n) == 2
  {
    assert SpaceRun(t, n + 2) == 0;
    assert SpaceRun(t, n + 1) == 1;
    assert SpaceRun(t, n) == 2;
  }

  lemma WordAhead(t: string, start: nat, n: nat)
    requires start < n && n + 2 < |t| && t[n] == '\n' && t[n + 1] == '\n' && !IsSpace(t[n + 2])
    requires forall j | start <= j < n :: !IsSpace(t[j])
    ensures SplitFrom(BlankLine, t, start, start) == [t[start..n]] + SplitFrom(BlankLine, t, n + 2, n + 2)
  {
    BlankLineAt(t, n);
    MatchStep(BlankLine, t, start, n, n + 2);
    NoMatchInWord(BlankLine, t, start, start, n);
  }

  lemma {:induction false} LastWord(t: string, start: nat)
    requires start <= |t| && forall j | start <= j < |t| :: !IsSpace(t[j])
    ensures SplitFrom(BlankLine, t, start, start) == [t[start..]]
  {
    NoMatchInWord(BlankLine, t, start, start, |t|);
  }

  lemma {:induction false} SpreadStripped(ws: seq<string>)
    requires AllSolid(ws) && ws != []
    ensures Spread(ws) != "" && !IsSpace(Spread(ws)[0]) && Stripped(Spread(ws))
  {
    if |ws| > 1 {
      SpreadStripped(ws[1..]);
    }
  }

  lemma FirstWord(t: string, at: nat, ws: seq<string>, n: nat)
    requires AllSolid(ws) && |ws| > 1 && at <= |t| && t[at..] == Spread(ws) && n == at + |ws[0]|
    ensures at < n && n + 2 < |t| && t[n] == '\n' && t[n + 1] == '\n' && !IsSpace(t[n + 2])
    ensures t[at..n] == ws[0] && t[n + 2..] == Spread(ws[1..])
    ensures forall j | at <= j < n :: !IsSpace(t[j])
  {
    var w, rest := ws[0], Spread(ws[1..]);
    SpreadStripped(ws[1..]);
    assert t[at..] == w + "\n\n" + rest;
    assert forall j | at <= j < |t| :: t[j] == t[at..][j - at];
  }

  lemma {:induction false} OnlyWord(t: string, at: nat, ws: seq<string>)
    requires AllSolid(ws) && |ws| == 1 && at <= |t| && t[at..] == Spread(ws)
    ensures SplitFrom(BlankLine, t, at, at) == ws
  {
    assert forall j | at <= j < |t| :: t[j] == ws[0][j - at];
    LastWord(t, at);
  }

  lemma Headed(ws: seq<string>, w: string, rest: seq<string>)
    requires ws != [] && w == ws[0] && rest == ws[1..]
    ensures [w] + rest == ws
  {
  }

  lemma FirstSplits(t: string, at: nat, ws: seq<string>, n: nat)
    requires AllSolid(ws) && |ws| > 1 && at <= |t| && t[at..] == Spread(ws) && n == at + |ws[0]| && n + 2 <= |t|
    requires SplitFrom(BlankLine, t, n + 2, n + 2) == ws[1..]
    ensures SplitFrom(BlankLine, t, at, at) == ws
  {
    FirstWord(t, at, ws, n);
    WordAhead(t, at, n);
    Headed(ws, t[at..n], ws[1..]);
  }

  /** Whatever stands before them, the words are split from each other. */
  lemma {:induction false} SpreadSplits(t: string, at: nat, ws: seq<string>)
    requires AllSolid(ws) && ws != [] && at <= |t| && t[at..] == Spread(ws)
    ensures SplitFrom(BlankLine, t, at, at) == ws
    decreases |ws|
  {
    if |ws| == 1 {
      OnlyWord(t, at, ws);
    } else {
      var n := at + |ws[0]|;
      FirstWord(t, at, ws, n);
      SpreadSplits(t, n + 2, ws[1..]);
      FirstSplits(t, at, ws, n);
    }
  }

  lemma StripAllOneMore(ws: seq<string>, w: string)
    requires StripAll(ws) == ws && Strip(w) == w && w != ""
    ensures StripAll(ws + [w]) == ws + [w]
  {
    assert (ws + [w])[..|ws|] == ws;
  }

  lemma {:induction false} StripAllOfWords(ws: seq<string>)
    requires AllSolid(ws)
    ensures StripAll(ws) == ws
  {
    if ws != [] {
      var before, w := ws[..|ws| - 1], ws[|ws| - 1];
      assert before + [w] == ws;
      assert w != "" && Strip(w) == w by {
        StrippedIsFixed(w);
      }
      StripAllOfWords(before);
      StripAllOneMore(before, w);
    }
  }

  /** The words are the paragraphs. */
  lemma SpreadParagraphs(ws: seq<string>)
    requires AllSolid(ws) && ws != []
    ensures Paragraphs(Spread(ws)) == ws
  {
    assert Spread(ws)[0..] == Spread(ws);
    SpreadSplits(Spread(ws), 0, ws);
    StripAllOfWords(ws);
  }

  lemma {:induction false} SpreadOneMore(ws: seq<string>, w: string)
    requires ws != []
    ensures Spread(ws + [w]) == Spread(ws) + "\n\n" + w
  {
    if |ws| == 1 {
      assert (ws + [w])[1..] == [w];
    } else {
      assert (ws + [w])[1..] == ws[1..] + [w];
      SpreadOneMore(ws[1..], w);
    }
  }

  /** Words that together, separated as paragraphs, come to at most the size plus one share a chunk. */
  lemma {:induction false} SpreadShares(ws: seq<string>, size: int, overlap: int)
    requires AllSolid(ws) && ws != [] && |Spread(ws)| <= size + 1 && (|ws| == 1 ==> |ws[0]| < size)
    ensures AddParagraphs(ws, size, overlap) == Acc([], Spread(ws), "")
  {
    var n := |ws| - 1;
    var before := ws[..n];
    if n == 0 {
      assert AddParagraphs(before, size, overlap) == Acc([], "", "");
    } else {
      SpreadOneMore(before, ws[n]);
      assert before + [ws[n]] == ws;
      SpreadShares(before, size, overlap);
      assert Spread(before) != "";
    }
  }

  // ----- texts that reach the bound -----

  /** Words of one or two characters that as paragraphs come to n characters.  Three cannot be had. */
  function ShortWords(n: nat): (ws: seq<string>)
    requires n > 0 && n != 3
    ensures ws != [] && AllSolid(ws) && forall i | 0 <= i < |ws| :: |ws[i]| <= 2
    ensures |ws| == 1 ==> |ws[0]| == n
  {
    if n <= 2 then [Word(n)]
    else if n == 6 then [Word(2), Word(2)]
    else [Word(1)] + ShortWords(n - 3)
  }

  lemma {:induction false} ShortWordsLength(n: nat)
    requires n > 0 && n != 3
    ensures |Spread(ShortWords(n))| == n
  {
    if n == 6 {
      assert ShortWords(6)[1..] == [Word(2)];
    } else if n > 2 {
      ShortWordsLength(n - 3);
      assert ShortWords(n)[1..] == ShortWords(n - 3);
    }
  }

  /** A chunk of this length comes out of a text with paragraphs up to the given length. */
  ghost predicate Reached(size: int, overlap: int, longest: nat, n: int) {
    exists text, c :: ParagraphsUpTo(text, longest) && c in Cuts(text, size, overlap) && |c.text| == n
  }

  lemma ChunkReached(text: string, c: Cut, size: int, overlap: int, longest: nat)
    requires ParagraphsUpTo(text, longest) && c in Cuts(text, size, overlap)
    ensures Reached(size, overlap, longest, |c.text|)
  {
  }

  /** "At most chunk_size characters per chunk" fails for every size of at least three: paragraphs of one or
      two characters that the test lets share a chunk make one of size plus one. */
  lemma SizeIsExceededByOne(size: nat, overlap: int, longest: nat)
    requires size >= 3 && longest >= 2
    ensures Reached(size, overlap, longest, size + 1)
  {
    var ws := ShortWords(size + 1);
    ShortWordsLength(size + 1);
    SpreadStripped(ws);
    SpreadShares(ws, size, overlap);
    LastChunk(ws, AddParagraphs(ws, size, overlap), size, overlap, longest);
  }

  // ----- chunks carried over whole -----

  ghost predicate Unpunctuated(t: string) {
    forall i | 0 <= i < |t| :: t[i] != '.' && t[i] != '!' && t[i] != '?'
  }

  lemma {:induction false} NoSentenceGap(t: string, i: nat)
    requires i <= |t| && Unpunctuated(t)
    ensures SplitFrom(SentenceGap, t, 0, i) == [t[0..]]
    decreases |t| - i
  {
    if i < |t| {
      NoSentenceGap(t, i + 1);
    }
  }

  /** A text without punctuation is one sentence. */
  lemma OneSentence(t: string)
    requires Unpunctuated(t) && t != "" && Stripped(t)
    ensures Sentences(t) == [t]
  {
    NoSentenceGap(t, 0);
    assert t[0..] == t;
    StrippedIsFixed(t);
    assert StripAll([t]) == [t] by {
      StripAllOneMore([], t);
    }
  }

  /** It is its own overlap if it fits. */
  lemma CarriedWhole(t: string, overlap: int)
    requires Unpunctuated(t) && t != "" && Stripped(t) && |t| <= overlap
    ensures Overlap(t, overlap) == t
  {
    OneSentence(t);
    StrippedIsFixed(t);
    assert Collect([t], 0, t, overlap) == t;
  }

  ghost predicate Plain(ws: seq<string>) {
    AllSolid(ws) && forall i | 0 <= i < |ws| :: Unpunctuated(ws[i])
  }

  lemma {:induction false} SpreadUnpunctuated(ws: seq<string>)
    requires Plain(ws)
    ensures Unpunctuated(Spread(ws))
  {
    if |ws| > 1 {
      SpreadUnpunctuated(ws[1..]);
    }
  }

  /** One more paragraph: whether it fits beside the words so far or not, they are all in front of it. */
  lemma StillTogether(a: Acc, front: string, w: string, size: int, overlap: int)
    requires a.cur == front && front != "" && Stripped(front) && Unpunctuated(front) && |front| <= overlap
    ensures AddParagraph(a, w, size, overlap).cur == front + "\n\n" + w
  {
    CarriedWhole(front, overlap);
  }

  lemma FirstTogether(w: string, size: int, overlap: int)
    requires Solid(w) && Unpunctuated(w)
    ensures AddParagraph(Acc([], "", ""), w, size, overlap).cur == w
  {
    OneSentence(w);
    assert [w][..0] == [];
    assert AddSentences(Acc([], "", ""), [w], size) == AddSentence(Acc([], "", ""), w, size);
  }

  /** As long as they fit the overlap, all words so far are in the current chunk, whatever the size. */
  lemma {:induction false} AllTogether(ws: seq<string>, size: int, overlap: int)
    requires Plain(ws) && ws != [] && |Spread(ws)| <= overlap
    ensures AddParagraphs(ws, size, overlap).cur == Spread(ws)
  {
    var before, w := ws[..|ws| - 1], ws[|ws| - 1];
    assert before + [w] == ws;
    AddParagraphsOneMore(before, w, size, overlap);
    if before == [] {
      FirstTogether(w, size, overlap);
      assert Spread([w]) == w;
    } else {
      SpreadOneMore(before, w);
      AllTogether(before, size, overlap);
      SpreadStripped(before);
      SpreadUnpunctuated(before);
      StillTogether(AddParagraphs(before, size, overlap), Spread(before), w, size, overlap);
    }
  }

  /** The chunk still being built when the paragraphs are over is one of the chunks. */
  lemma LastChunk(ws: seq<string>, a: Acc, size: int, overlap: int, longest: nat)
    requires AllSolid(ws) && ws != [] && forall i | 0 <= i < |ws| :: |ws[i]| <= longest
    requires a == AddParagraphs(ws, size, overlap) && a.cur != "" && Stripped(a.cur)
    ensures Reached(size, overlap, longest, |a.cur|)
  {
    SpreadParagraphs(ws);
    StrippedIsFixed(a.cur);
    ChunkReached(Spread(ws), Cut(a.lap, a.cur), size, overlap, longest);
  }

  /** A last paragraph behind an overlap. */
  lemma BehindOverlap(ws: seq<string>, o: string, b: string, size: int, overlap: int, longest: nat)
    requires AllSolid(ws) && Solid(b) && |b| == longest && forall i | 0 <= i < |ws| :: |ws[i]| <= longest
    requires o != "" && Stripped(o)
    requires AddParagraph(AddParagraphs(ws, size, overlap), b, size, overlap).cur == o + "\n\n" + b
    ensures Reached(size, overlap, longest, |o| + 2 + longest)
  {
    AddParagraphsOneMore(ws, b, size, overlap);
    GluedParts(o, "\n\n", b, "");
    LastChunk(ws + [b], AddParagraphs(ws + [b], size, overlap), size, overlap, longest);
  }

  /** Words that come to just the overlap, and then a paragraph that does not fit: the overlap, a separator and
      the paragraph make a chunk. */
  lemma OverlapOf(ws: seq<string>, size: int, overlap: int, longest: nat)
    requires Plain(ws) && ws != [] && |Spread(ws)| == overlap && overlap + longest + 1 > size
    requires longest > 0 && forall i | 0 <= i < |ws| :: |ws[i]| <= longest
    ensures Reached(size, overlap, longest, overlap + 2 + longest)
  {
    var b := Word(longest);
    AllTogether(ws, size, overlap);
    SpreadStripped(ws);
    SpreadUnpunctuated(ws);
    CarriedWhole(Spread(ws), overlap);
    BehindOverlap(ws, Spread(ws), b, size, overlap, longest);
  }

  /** Three characters cannot be had from words of one or two, but from two sentences: these. */
  const DOT: string := "."
  const TWO: string := ".\n\nx"

  lemma DotSplits()
    ensures SplitFrom(SentenceGap, DOT, 0, 0) == [DOT]
  {
    NoMatchInWord(SentenceGap, DOT, 0, 0, 1);
    assert DOT[0..] == DOT;
  }

  lemma GapAfterDot()
    ensures MatchLength(SentenceGap, TWO, 1) == 2
  {
    assert SpaceRun(TWO, 3) == 0;
    assert SpaceRun(TWO, 2) == 1;
  }

  lemma TwoSplits()
    ensures SplitFrom(SentenceGap, TWO, 0, 0) == [DOT, "x"]
  {
    NoMatchInWord(SentenceGap, TWO, 0, 0, 1);
    GapAfterDot();
    MatchStep(SentenceGap, TWO, 0, 1, 3);
    NoMatchInWord(SentenceGap, TWO, 3, 3, 4);
    assert TWO[0..1] == DOT && TWO[3..] == "x";
    assert [DOT] + ["x"] == [DOT, "x"];
  }

  lemma DotSentences()
    ensures Sentences(DOT) == [DOT]
  {
    DotSplits();
    DotWords();
    PiecesAre(SentenceGap, DOT, [DOT]);
  }

  lemma DotWords()
    ensures AllSolid([DOT]) && AllSolid([DOT, "x"]) && |DOT| == 1
  {
  }

  lemma PiecesAre(sep: Separator, t: string, ws: seq<string>)
    requires SplitFrom(sep, t, 0, 0) == ws && AllSolid(ws)
    ensures Pieces(sep, t) == ws
  {
    StripAllOfWords(ws);
  }

  lemma TwoSentences()
    ensures Sentences(TWO) == [DOT, "x"]
  {
    TwoSplits();
    DotWords();
    PiecesAre(SentenceGap, TWO, [DOT, "x"]);
  }

  lemma TwoCollected(ss: seq<string>)
    requires ss == [DOT, "x"]
    ensures Collect(ss, 2, "", 3) == ". x"
  {
    assert Collect(ss, 0, ". x", 3) == ". x";
    assert Collect(ss, 1, "x", 3) == ". x";
  }

  lemma DotOverlaps()
    ensures Overlap(DOT, 3) == DOT && Overlap(TWO, 3) == ". x"
  {
    DotSentences();
    TwoSentences();
    TwoCollected(Sentences(TWO));
    StrippedIsFixed(DOT);
    StrippedIsFixed(". x");
    assert Collect([DOT], 0, DOT, 3) == DOT;
  }

  lemma DotOpens(size: int)
    ensures AddParagraph(Acc([], "", ""), DOT, size, 3).cur == DOT
  {
    DotSentences();
    assert [DOT][..0] == [];
  }

  lemma DotContinues(size: int, a: Acc)
    requires a.cur == DOT
    ensures AddParagraph(a, "x", size, 3).cur == TWO
  {
    DotOverlaps();
    assert DOT + "\n\n" + "x" == TWO;
  }

  lemma DotGoesOn(size: int)
    ensures AddParagraphs([DOT, "x"], size, 3).cur == TWO
  {
    DotOpens(size);
    DotContinues(size, AddParagraph(Acc([], "", ""), DOT, size, 3));
    AddParagraphsOneMore([], DOT, size, 3);
    AddParagraphsOneMore([DOT], "x", size, 3);
    assert [] + [DOT] == [DOT] && [DOT] + ["x"] == [DOT, "x"];
  }

  /** The third paragraph does not fit, and gets two sentences in front. */
  lemma DotCloses(size: int, b: string, a: Acc)
    requires size <= 5 && |b| == 2 && a.cur == TWO
    ensures AddParagraph(a, b, size, 3).cur == ". x" + "\n\n" + b
  {
    DotOverlaps();
  }

  lemma DotsCarried()
    ensures var o := ". x"; |o| == 3 && Stripped(o)
    ensures forall i | 0 <= i < |[DOT, "x"]| :: |[DOT, "x"][i]| <= 2
  {
  }

  lemma OverlapOfThree(size: int)
    requires size <= 5
    ensures Reached(size, 3, 2, 7)
  {
    var ws, o, b := [DOT, "x"], ". x", Word(2);
    DotWords();
    DotsCarried();
    assert o != "";
    DotGoesOn(size);
    DotCloses(size, b, AddParagraphs(ws, size, 3));
    BehindOverlap(ws, o, b, size, 3, 2);
  }

  lemma {:induction false} ShortWordsPlain(n: nat)
    requires n > 0 && n != 3
    ensures Plain(ShortWords(n))
  {
    if n > 2 && n != 6 {
      ShortWordsPlain(n - 3);
    }
  }

  /** The overlap, a separator and the longest paragraph are reached whenever that is more than the size plus one,
      for every positive overlap. */
  lemma OverlapReached(size: int, overlap: int, longest: nat)
    requires 0 < overlap && (2 <= longest || overlap == longest == 1) && longest >= size - overlap
    ensures Reached(size, overlap, longest, overlap + 2 + longest)
  {
    if overlap <= longest {
      OverlapOf([Word(overlap)], size, overlap, longest);
    } else if overlap == 3 {
      OverlapOfThree(size);
    } else {
      ShortWordsLength(overlap);
      ShortWordsPlain(overlap);
      OverlapOf(ShortWords(overlap), size, overlap, longest);
    }
  }

  /** A paragraph that does not fit the size and is not cut stands alone. */
  lemma ParagraphReached(size: int, overlap: int, longest: nat)
    requires longest > 0
    ensures longest >= size ==> Reached(size, overlap, longest, longest)
  {
    var w := Word(longest);
    if longest >= size {
      AddParagraphsOneMore([], w, size, overlap);
      assert [] + [w] == [w];
      FirstTogether(w, size, overlap);
      LastChunk([w], AddParagraphs([w], size, overlap), size, overlap, longest);
    }
  }

  /** No text with paragraphs up to the given length has a chunk longer than x. */
  ghost predicate ChunksWithin(size: int, overlap: int, longest: nat, x: int) {
    forall text | ParagraphsUpTo(text, longest) :: forall c | c in Cuts(text, size, overlap) :: |c.text| <= x
  }

  lemma ReachedExceeds(size: int, overlap: int, longest: nat, n: int, x: int)
    requires Reached(size, overlap, longest, n) && ChunksWithin(size, overlap, longest, x)
    ensures n <= x
  {
  }

  lemma ChunksAreWithin(size: int, overlap: int, longest: nat, x: int)
    requires LongestChunk(size, overlap, longest) <= x
    ensures ChunksWithin(size, overlap, longest, x)
  {
    forall text | ParagraphsUpTo(text, longest) ensures forall c | c in Cuts(text, size, overlap) :: |c.text| <= x {
      ChunkSizeBounded(text, size, overlap, longest);
    }
  }

  /** The bound cannot be lowered, for any size and overlap, once paragraphs can have two characters.  The one
      exception is a size of two without an overlap and with no longer paragraphs. */
  lemma LongestChunkExactly(size: int, overlap: int, longest: nat, x: int)
    requires longest >= 2 && !(size == longest == 2 && overlap <= 0)
    ensures ChunksWithin(size, overlap, longest, x) <==> LongestChunk(size, overlap, longest) <= x
  {
    if LongestChunk(size, overlap, longest) <= x {
      ChunksAreWithin(size, overlap, longest, x);
    } else if ChunksWithin(size, overlap, longest, x) {
      if overlap > 0 && longest >= size - overlap {
        OverlapReached(size, overlap, longest);
        ReachedExceeds(size, overlap, longest, overlap + 2 + longest, x);
      } else if overlap <= 0 && longest > size {
        ParagraphReached(size, overlap, longest);
        ReachedExceeds(size, overlap, longest, longest, x);
      } else {
        SizeIsExceededByOne(size, overlap, longest);
        ReachedExceeds(size, overlap, longest, size + 1, x);
      }
    }
  }

  /** All chunks stay within the size plus one exactly when the longest paragraph fits beside an overlap and a
      separator budgeted as one character, or, without an overlap, when it is no longer itself. */
  lemma SizePlusOneExactly(size: int, overlap: int, longest: nat)
    requires longest > 0 && (longest >= 2 || overlap <= 1)
    ensures ChunksWithin(size, overlap, longest, size + 1) <==>
            if overlap > 0 then longest <= size - overlap - 1 else longest <= size + 1
  {
    if LongestChunk(size, overlap, longest) <= size + 1 {
      ChunksAreWithin(size, overlap, longest, size + 1);
    } else if ChunksWithin(size, overlap, longest, size + 1) {
      if overlap > 0 {
        OverlapReached(size, overlap, longest);
        ReachedExceeds(size, overlap, longest, overlap + 2 + longest, size + 1);
      } else {
        ParagraphReached(size, overlap, longest);
        ReachedExceeds(size, overlap, longest, longest, size + 1);
      }
    }
  }
}
