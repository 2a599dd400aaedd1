/** Cutting a page into chunks: paragraphs are accumulated up to a size, each chunk cut between
    paragraphs passes an overlap on to the next, and a first paragraph that is too long is cut
    between sentences. */
module Chunker {
  import opened Text

  /** A chunk together with the part of its front that repeats the end of the chunk before it. */
  datatype Cut = Cut(lap: string, text: string)

  /** The accumulation: finished chunks, the chunk being built, and the overlap it began with. */
  datatype Acc = Acc(done: seq<Cut>, cur: string, lap: string)

  // ----- overlap -----

  function Join(ss: seq<string>): string {
    if ss == [] then "" else if |ss| == 1 then ss[0] else ss[0] + " " + Join(ss[1..])
  }

  /** Sentences are taken from the end, the k-th next, while what is collected still fits in n. */
  function Collect(ss: seq<string>, k: nat, acc: string, n: int): string
    requires k <= |ss|
    decreases k
  {
    if k == 0 then acc
    else
      var candidate := if acc != "" then ss[k - 1] + " " + acc else ss[k - 1];
      if |candidate| > n then acc else Collect(ss, k - 1, candidate, n)
  }

  function Overlap(text: string, n: int): string {
    if n <= 0 || text == "" then ""
    else Strip(Collect(Sentences(text), |Sentences(text)|, "", n))
  }

  // ----- accumulation -----

  function Emit(a: Acc): seq<Cut> {
    if a.cur != "" then a.done + [Cut(a.lap, Strip(a.cur))] else a.done
  }

  function AddSentence(a: Acc, sent: string, size: int): Acc {
    if |a.cur| + |sent| + 1 <= size then
      a.(cur := if a.cur != "" then a.cur + " " + sent else sent)
    else Acc(Emit(a), sent, "")
  }

  function AddSentences(a: Acc, ss: seq<string>, size: int): Acc {
    if ss == [] then a
    else AddSentence(AddSentences(a, ss[..|ss| - 1], size), ss[|ss| - 1], size)
  }

  function AddParagraph(a: Acc, para: string, size: int, overlap: int): Acc {
    if |a.cur| + |para| + 1 <= size then
      a.(cur := if a.cur != "" then a.cur + "\n\n" + para else para)
    else if a.cur != "" then
      var o := Overlap(a.cur, overlap);
      Acc(Emit(a), if o != "" then o + "\n\n" + para else para, o)
    else AddSentences(a, Sentences(para), size)
  }

  function AddParagraphs(ps: seq<string>, size: int, overlap: int): Acc {
    if ps == [] then Acc([], "", "")
    else AddParagraph(AddParagraphs(ps[..|ps| - 1], size, overlap), ps[|ps| - 1], size, overlap)
  }

  function Cuts(text: string, size: int, overlap: int): seq<Cut> {
    Emit(AddParagraphs(Paragraphs(text), size, overlap))
  }

  lemma AddParagraphsOneMore(ws: seq<string>, w: string, size: int, overlap: int)
    ensures AddParagraphs(ws + [w], size, overlap) == AddParagraph(AddParagraphs(ws, size, overlap), w, size, overlap)
  {
    assert (ws + [w])[..|ws|] == ws;
  }

  // ----- the overlap is the longest suffix of whole sentences that fits -----

  lemma {:induction false} JoinIsStripped(ss: seq<string>)
    requires Words(ss)
    ensures Stripped(Join(ss)) && (Join(ss) == "" <==> ss == [])
  {
    if |ss| > 1 {
      JoinIsStripped(ss[1..]);
    }
  }

  lemma JoinLonger(ss: seq<string>, k: nat)
    requires k < |ss| && Words(ss)
    ensures Join(ss[k..]) == if k + 1 < |ss| then ss[k] + " " + Join(ss[k + 1..]) else ss[k]
    ensures |Join(ss[k..])| > |Join(ss[k + 1..])|
  {
    assert ss[k..][1..] == ss[k + 1..];
  }

  lemma {:induction false} CollectIsMaximal(ss: seq<string>, k: nat, n: int) returns (j: nat)
    requires k <= |ss| && Words(ss) && |Join(ss[k..])| <= Max(0, n)
    ensures j <= k && Collect(ss, k, Join(ss[k..]), n) == Join(ss[j..])
    ensures |Join(ss[j..])| <= Max(0, n)
    ensures forall i | 0 <= i < j :: |Join(ss[i..])| > n
    decreases k
  {
    if k == 0 {
      return 0;
    }
    JoinLonger(ss, k - 1);
    JoinIsStripped(ss[k..]);
    if |Join(ss[k - 1..])| > n {
      forall i | 0 <= i < k ensures |Join(ss[i..])| > n {
        LongerSuffix(ss, i, k - 1);
      }
      return k;
    }
    j := CollectIsMaximal(ss, k - 1, n);
  }

  lemma {:induction false} LongerSuffix(ss: seq<string>, i: nat, k: nat)
    requires i <= k < |ss| && Words(ss)
    ensures |Join(ss[i..])| >= |Join(ss[k..])|
    decreases k - i
  {
    if i < k {
      JoinLonger(ss, i);
      LongerSuffix(ss, i + 1, k);
    }
  }

  function Max(a: int, b: int): int { if a < b then b else a }

  /** The overlap taken from a chunk is its last sentences, joined by single spaces: it fits the limit,
      and taking any more of them would not. */
  lemma OverlapIsLongestFit(text: string, n: int)
    ensures exists j ::
      && 0 <= j <= |Sentences(text)|
      && Overlap(text, n) == Join(Sentences(text)[j..])
      && |Overlap(text, n)| <= Max(0, n)
      && (n > 0 ==> forall i | 0 <= i < j :: |Join(Sentences(text)[i..])| > n)
  {
    var ss := Sentences(text);
    PiecesKeepInk(SentenceGap, text);
    if n <= 0 || text == "" {
      assert ss[|ss|..] == [];
    } else {
      assert ss[|ss|..] == [];
      var j := CollectIsMaximal(ss, |ss|, n);
      JoinIsStripped(ss[j..]);
      StrippedIsFixed(Join(ss[j..]));
    }
  }

  lemma OverlapIsStripped(text: string, n: int)
    ensures Stripped(Overlap(text, n)) && |Overlap(text, n)| <= Max(0, n)
  {
    OverlapIsLongestFit(text, n);
    if n > 0 && text != "" {
      StripKeepsInk(Collect(Sentences(text), |Sentences(text)|, "", n));
    }
  }

  // ----- what the accumulation keeps -----

  /** A chunk without its overlap. */
  function Fresh(c: Cut): string {
    if |c.lap| <= |c.text| then c.text[|c.lap|..] else ""
  }

  /** The ink of the chunks once each chunk's overlap is deleted. */
  function NewInk(cuts: seq<Cut>): string {
    if cuts == [] then "" else NewInk(cuts[..|cuts| - 1]) + Ink(Fresh(cuts[|cuts| - 1]))
  }

  ghost predicate Sound(c: Cut) {
    c.lap <= c.text && c.text != "" && Stripped(c.text)
  }

  /** What has been accumulated so far says exactly what the input so far says. */
  ghost predicate Holds(a: Acc, ink: string) {
    && (forall c | c in a.done :: Sound(c))
    && Stripped(a.cur) && a.lap <= a.cur
    && NewInk(a.done) + Ink(a.cur[|a.lap|..]) == ink
  }

  lemma EmitHolds(a: Acc, ink: string)
    requires Holds(a, ink)
    ensures forall c | c in Emit(a) :: Sound(c)
    ensures NewInk(Emit(a)) == ink
  {
    if a.cur != "" {
      StrippedIsFixed(a.cur);
      assert Emit(a)[..|a.done|] == a.done;
    } else {
      assert a.lap == "";
    }
  }

  lemma GluedParts(front: string, glue: string, piece: string, lap: string)
    requires front != "" && Stripped(front) && piece != "" && Stripped(piece) && lap <= front
    ensures Stripped(front + glue + piece) && lap <= front + glue + piece
    ensures (front + glue + piece)[|lap|..] == front[|lap|..] + (glue + piece)
  {
    var whole := front + glue + piece;
    assert whole[0] == front[0] && whole[|whole| - 1] == piece[|piece| - 1];
  }

  lemma TailGrows(front: string, glue: string, piece: string, lap: string)
    requires front != "" && Stripped(front) && piece != "" && Stripped(piece) && lap <= front && Blank(glue)
    ensures Stripped(front + glue + piece) && lap <= front + glue + piece
    ensures Ink((front + glue + piece)[|lap|..]) == Ink(front[|lap|..]) + Ink(piece)
  {
    GluedParts(front, glue, piece, lap);
    InkConcat(front[|lap|..], glue + piece);
    BlankPrefix(glue, piece);
  }

  lemma {:induction false} GlueOnto(a: Acc, ink: string, glue: string, piece: string)
    requires Holds(a, ink) && a.cur != "" && piece != "" && Stripped(piece) && Blank(glue)
    ensures Holds(a.(cur := a.cur + glue + piece), ink + Ink(piece))
  {
    var done, tail := NewInk(a.done), Ink(a.cur[|a.lap|..]);
    var cur := a.cur + glue + piece;
    TailGrows(a.cur, glue, piece, a.lap);
    calc {
      done + Ink(cur[|a.lap|..]);
      done + (tail + Ink(piece));
      { Assoc(done, tail, Ink(piece)); }
      ink + Ink(piece);
    }
  }

  lemma {:induction false} Open(a: Acc, ink: string, piece: string)
    requires Holds(a, ink) && a.cur == "" && piece != "" && Stripped(piece)
    ensures Holds(a.(cur := piece), ink + Ink(piece))
  {
    assert a.lap == "" && piece[0..] == piece && a.cur[0..] == "";
    assert NewInk(a.done) + "" == NewInk(a.done);
  }

  /** Appending a piece after a whitespace separator adds just the piece's ink. */
  lemma {:induction false} GlueHolds(a: Acc, ink: string, glue: string, piece: string)
    requires Holds(a, ink) && piece != "" && Stripped(piece) && Blank(glue)
    ensures Holds(a.(cur := if a.cur != "" then a.cur + glue + piece else piece), ink + Ink(piece))
  {
    if a.cur != "" {
      GlueOnto(a, ink, glue, piece);
    } else {
      Open(a, ink, piece);
    }
  }

  lemma FreshStart(lap: string, glue: string, piece: string)
    requires lap != "" && Stripped(lap) && piece != "" && Stripped(piece)
    requires Blank(glue)
    ensures Stripped(lap + glue + piece) && lap <= lap + glue + piece
    ensures Ink((lap + glue + piece)[|lap|..]) == Ink(piece)
  {
    GluedParts(lap, glue, piece, lap);
    BlankPrefix(glue, piece);
    assert lap[|lap|..] + (glue + piece) == glue + piece;
  }

  /** Starting the next chunk from a stripped overlap and a piece. */
  lemma RestartHolds(a: Acc, ink: string, lap: string, piece: string)
    requires Holds(a, ink) && piece != "" && Stripped(piece) && Stripped(lap)
    ensures Holds(Acc(Emit(a), if lap != "" then lap + "\n\n" + piece else piece, lap), ink + Ink(piece))
  {
    EmitHolds(a, ink);
    if lap != "" {
      FreshStart(lap, "\n\n", piece);
    } else {
      assert piece[0..] == piece;
    }
  }

  lemma SentenceHolds(a: Acc, ink: string, sent: string, size: int)
    requires Holds(a, ink) && sent != "" && Stripped(sent)
    ensures Holds(AddSentence(a, sent, size), ink + Ink(sent))
  {
    if |a.cur| + |sent| + 1 <= size {
      GlueHolds(a, ink, " ", sent);
    } else {
      RestartHolds(a, ink, "", sent);
    }
  }

  lemma {:induction false} SentencesHold(a: Acc, ink: string, ss: seq<string>, size: int)
    requires Holds(a, ink) && Words(ss)
    ensures Holds(AddSentences(a, ss, size), ink + InkOf(ss))
  {
    if ss == [] {
      assert ink + "" == ink;
    } else {
      var before, sent := ss[..|ss| - 1], ss[|ss| - 1];
      SentencesHold(a, ink, before, size);
      SentenceHolds(AddSentences(a, before, size), ink + InkOf(before), sent, size);
      Assoc(ink, InkOf(before), Ink(sent));
    }
  }

  lemma {:induction false} ParagraphHolds(a: Acc, ink: string, para: string, size: int, overlap: int)
    requires Holds(a, ink) && para != "" && Stripped(para)
    ensures Holds(AddParagraph(a, para, size, overlap), ink + Ink(para))
  {
    if |a.cur| + |para| + 1 <= size {
      GlueHolds(a, ink, "\n\n", para);
    } else if a.cur != "" {
      OverlapIsStripped(a.cur, overlap);
      RestartHolds(a, ink, Overlap(a.cur, overlap), para);
    } else {
      PiecesKeepInk(SentenceGap, para);
      SentencesHold(a, ink, Sentences(para), size);
    }
  }

  lemma {:induction false} ParagraphsHold(ps: seq<string>, size: int, overlap: int)
    requires Words(ps)
    ensures Holds(AddParagraphs(ps, size, overlap), InkOf(ps))
  {
    if ps != [] {
      ParagraphsHold(ps[..|ps| - 1], size, overlap);
      ParagraphHolds(AddParagraphs(ps[..|ps| - 1], size, overlap), InkOf(ps[..|ps| - 1]), ps[|ps| - 1], size, overlap);
    }
  }

  /** Chunking loses nothing and invents nothing: delete each chunk's overlap, concatenate, ignore
      layout, and the page is back, for every text, size and overlap.  Each overlap is a prefix of
      its chunk, and no chunk is blank. */
  lemma {:induction false} ContentPreserved(text: string, size: int, overlap: int)
    ensures forall c | c in Cuts(text, size, overlap) :: Sound(c)
    ensures NewInk(Cuts(text, size, overlap)) == Ink(text)
  {
    PiecesKeepInk(BlankLine, text);
    ParagraphsHold(Paragraphs(text), size, overlap);
    EmitHolds(AddParagraphs(Paragraphs(text), size, overlap), InkOf(Paragraphs(text)));
  }

  /** A page with any ink yields a chunk, and a page without any yields none. */
  lemma ChunksExactlyWhenInk(text: string, size: int, overlap: int)
    ensures Cuts(text, size, overlap) == [] <==> Ink(text) == ""
  {
    ContentPreserved(text, size, overlap);
    if Ink(text) == "" {
      PiecesKeepInk(BlankLine, text);
      if Paragraphs(text) != [] {
        PiecesHaveInk(Paragraphs(text));
      }
    }
  }

  lemma PiecesHaveInk(ps: seq<string>)
    requires Words(ps) && ps != []
    ensures InkOf(ps) != ""
  {
    var p := ps[|ps| - 1];
    StripKeepsInk(p);
    StrippedIsFixed(p);
  }

  // ----- overlaps come from the chunk before -----

  ghost predicate Linked(done: seq<Cut>, overlap: int) {
    forall k | 0 <= k < |done| ::
      done[k].lap == "" || (k > 0 && done[k].lap == Overlap(done[k - 1].text, overlap))
  }

  ghost predicate LinkedAcc(a: Acc, overlap: int) {
    && Linked(a.done, overlap) && Stripped(a.cur)
    && (a.lap == "" || (a.done != [] && a.lap == Overlap(a.done[|a.done| - 1].text, overlap)))
  }

  lemma GluedStripped(front: string, glue: string, piece: string)
    requires Stripped(front) && piece != "" && Stripped(piece)
    ensures Stripped(if front != "" then front + glue + piece else piece)
  {
    if front != "" {
      GluedParts(front, glue, piece, "");
    }
  }

  lemma OneMoreLinked(done: seq<Cut>, c: Cut, overlap: int)
    requires Linked(done, overlap)
    requires c.lap == "" || (done != [] && c.lap == Overlap(done[|done| - 1].text, overlap))
    ensures Linked(done + [c], overlap)
  {
    var more := done + [c];
    forall k | 0 <= k < |more|
      ensures more[k].lap == "" || (k > 0 && more[k].lap == Overlap(more[k - 1].text, overlap))
    {
      if k < |done| {
        assert more[k] == done[k] && (k > 0 ==> more[k - 1] == done[k - 1]);
      }
    }
  }

  /** Finishing a chunk leaves a link for the overlap taken from it. */
  lemma EmitLinked(a: Acc, overlap: int)
    requires LinkedAcc(a, overlap)
    ensures Linked(Emit(a), overlap)
    ensures a.cur != "" ==> Emit(a) != [] && Emit(a)[|Emit(a)| - 1].text == a.cur
  {
    if a.cur != "" {
      StrippedIsFixed(a.cur);
      OneMoreLinked(a.done, Cut(a.lap, a.cur), overlap);
    }
  }

  lemma SentenceLinked(a: Acc, sent: string, size: int, overlap: int)
    requires LinkedAcc(a, overlap) && sent != "" && Stripped(sent)
    ensures LinkedAcc(AddSentence(a, sent, size), overlap)
  {
    GluedStripped(a.cur, " ", sent);
    EmitLinked(a, overlap);
  }

  lemma {:induction false} SentencesLinked(a: Acc, ss: seq<string>, size: int, overlap: int)
    requires LinkedAcc(a, overlap) && Words(ss)
    ensures LinkedAcc(AddSentences(a, ss, size), overlap)
  {
    if ss != [] {
      SentencesLinked(a, ss[..|ss| - 1], size, overlap);
      SentenceLinked(AddSentences(a, ss[..|ss| - 1], size), ss[|ss| - 1], size, overlap);
    }
  }

  /** A chunk is finished, and the next begins with its overlap. */
  lemma RestartLinked(a: Acc, para: string, overlap: int)
    requires LinkedAcc(a, overlap) && a.cur != "" && para != "" && Stripped(para)
    ensures var o := Overlap(a.cur, overlap);
      LinkedAcc(Acc(Emit(a), if o != "" then o + "\n\n" + para else para, o), overlap)
  {
    EmitLinked(a, overlap);
    OverlapIsStripped(a.cur, overlap);
    GluedStripped(Overlap(a.cur, overlap), "\n\n", para);
  }

  lemma {:induction false} ParagraphLinked(a: Acc, para: string, size: int, overlap: int)
    requires LinkedAcc(a, overlap) && para != "" && Stripped(para)
    ensures LinkedAcc(AddParagraph(a, para, size, overlap), overlap)
  {
    if |a.cur| + |para| + 1 <= size {
      GluedStripped(a.cur, "\n\n", para);
    } else if a.cur != "" {
      RestartLinked(a, para, overlap);
    } else {
      PiecesKeepInk(SentenceGap, para);
      SentencesLinked(a, Sentences(para), size, overlap);
    }
  }

  lemma {:induction false} ParagraphsLinked(ps: seq<string>, size: int, overlap: int)
    requires Words(ps)
    ensures LinkedAcc(AddParagraphs(ps, size, overlap), overlap)
  {
    if ps != [] {
      ParagraphsLinked(ps[..|ps| - 1], size, overlap);
      ParagraphLinked(AddParagraphs(ps[..|ps| - 1], size, overlap), ps[|ps| - 1], size, overlap);
    }
  }

  /** Every overlap is either empty or exactly the longest fitting suffix of the previous chunk. */
  lemma OverlapsComeFromPreviousChunk(text: string, size: int, overlap: int)
    ensures Linked(Cuts(text, size, overlap), overlap)
  {
    PiecesKeepInk(BlankLine, text);
    ParagraphsLinked(Paragraphs(text), size, overlap);
    EmitLinked(AddParagraphs(Paragraphs(text), size, overlap), overlap);
  }
}
