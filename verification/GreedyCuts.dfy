/** The chunks of a page are the greedy ones: sentences, and then paragraphs, share a chunk exactly as long as they
    fit. */
module GreedyCuts {
  import opened Text
  import opened Chunker

  function JoinWith(units: seq<string>, sep: string): string {
    if units == [] then "" else if |units| == 1 then units[0]
    else JoinWith(units[..|units| - 1], sep) + sep + units[|units| - 1]
  }

  /** A chunk: an overlap, if there is one, and some units, all separated alike. */
  function TextOf(lap: string, group: seq<string>, sep: string): string {
    if lap == "" then JoinWith(group, sep) else JoinWith([lap] + group, sep)
  }

  function Flat(groups: seq<seq<string>>): seq<string> {
    if groups == [] then [] else Flat(groups[..|groups| - 1]) + groups[|groups| - 1]
  }

  /** Each unit after the first fitted when it came. */
  ghost predicate Fits(lap: string, group: seq<string>, sep: string, size: int) {
    forall j | 1 <= j < |group| :: |TextOf(lap, group[..j], sep)| + |group[j]| + 1 <= size
  }

  /** The next unit did not fit any more. */
  ghost predicate Full(lap: string, group: seq<string>, next: seq<string>, sep: string, size: int) {
    next != [] && |TextOf(lap, group, sep)| + |next[0]| + 1 > size
  }

  ghost predicate GroupsFit(groups: seq<seq<string>>, laps: seq<string>, sep: string, size: int)
    requires |groups| == |laps|
  {
    forall k | 0 <= k < |groups| :: groups[k] != [] && Fits(laps[k], groups[k], sep, size)
  }

  ghost predicate GroupsFull(groups: seq<seq<string>>, laps: seq<string>, sep: string, size: int)
    requires |groups| == |laps|
  {
    forall k, m | 0 <= k < |groups| && m == k + 1 < |groups| :: Full(laps[k], groups[k], groups[m], sep, size)
  }

  /** The units, in order, in groups with overlaps: a unit joins the group before it exactly if it fits. */
  ghost predicate Greedy(units: seq<string>, groups: seq<seq<string>>, laps: seq<string>, sep: string, size: int) {
    |groups| == |laps| && Flat(groups) == units && GroupsFit(groups, laps, sep, size) && GroupsFull(groups, laps, sep, size)
  }

  function CutsOf(groups: seq<seq<string>>, laps: seq<string>, sep: string): (cuts: seq<Cut>)
    requires |groups| == |laps|
    ensures |cuts| == |groups| && forall k | 0 <= k < |cuts| :: cuts[k] == Cut(laps[k], TextOf(laps[k], groups[k], sep))
  {
    seq(|groups|, k requires 0 <= k < |groups| => Cut(laps[k], TextOf(laps[k], groups[k], sep)))
  }

  lemma TextGrows(lap: string, group: seq<string>, unit: string, sep: string)
    requires group != []
    ensures TextOf(lap, group + [unit], sep) == TextOf(lap, group, sep) + sep + unit
  {
    assert (group + [unit])[..|group|] == group;
    assert ([lap] + (group + [unit]))[..|[lap] + group|] == [lap] + group;
  }

  lemma TextOpens(lap: string, unit: string, sep: string)
    ensures TextOf(lap, [unit], sep) == if lap == "" then unit else lap + sep + unit
  {
    var two := [lap] + [unit];
    assert two[..|two| - 1] == [lap] && two[|two| - 1] == unit;
    assert JoinWith([lap], sep) == lap && JoinWith([unit], sep) == unit;
  }

  lemma FlatOneMore(groups: seq<seq<string>>, group: seq<string>)
    ensures Flat(groups + [group]) == Flat(groups) + group
  {
    assert (groups + [group])[..|groups|] == groups;
  }

  lemma JoinsFlat(front: seq<seq<string>>, last: seq<string>, unit: string)
    ensures Flat(front + [last + [unit]]) == Flat(front + [last]) + [unit]
  {
    FlatOneMore(front, last);
    FlatOneMore(front, last + [unit]);
  }

  lemma ReplacedFit(was: seq<seq<string>>, n: nat, group: seq<string>, laps: seq<string>, sep: string, size: int)
    requires n < |was| == |laps| && GroupsFit(was, laps, sep, size) && group != [] && Fits(laps[n], group, sep, size)
    ensures GroupsFit(was[n := group], laps, sep, size)
  {
    var groups := was[n := group];
    forall k | 0 <= k < |groups| ensures groups[k] != [] && Fits(laps[k], groups[k], sep, size) {
      assert k != n ==> groups[k] == was[k];
    }
  }

  lemma JoinsFull(was: seq<seq<string>>, last: seq<string>, laps: seq<string>, unit: string, sep: string, size: int)
    requires was != [] && |was| == |laps| && was[|was| - 1] == last && last != [] && GroupsFull(was, laps, sep, size)
    ensures GroupsFull(was[|was| - 1 := last + [unit]], laps, sep, size)
  {
    var groups := was[|was| - 1 := last + [unit]];
    forall k, m | 0 <= k < |groups| && m == k + 1 < |groups| ensures Full(laps[k], groups[k], groups[m], sep, size) {
      assert Full(laps[k], was[k], was[m], sep, size);
      assert groups[k] == was[k] && groups[m][0] == was[m][0];
    }
  }

  /** A unit that fits joins the last group. */
  lemma Joins(units: seq<string>, front: seq<seq<string>>, last: seq<string>, laps: seq<string>, unit: string, sep: string, size: int)
    requires Greedy(units, front + [last], laps, sep, size)
    requires |TextOf(laps[|laps| - 1], last, sep)| + |unit| + 1 <= size
    ensures Greedy(units + [unit], front + [last + [unit]], laps, sep, size)
  {
    var was := front + [last];
    assert was[|was| - 1] == last && was[|was| - 1 := last + [unit]] == front + [last + [unit]];
    JoinsFlat(front, last, unit);
    FitsOneMore(laps[|laps| - 1], last, unit, sep, size);
    ReplacedFit(was, |was| - 1, last + [unit], laps, sep, size);
    JoinsFull(was, last, laps, unit, sep, size);
  }

  lemma FitsOneMore(lap: string, group: seq<string>, unit: string, sep: string, size: int)
    requires Fits(lap, group, sep, size) && |TextOf(lap, group, sep)| + |unit| + 1 <= size
    ensures Fits(lap, group + [unit], sep, size)
  {
    assert forall j | 0 <= j <= |group| :: (group + [unit])[..j] == group[..j];
    assert group[..|group|] == group;
  }

  lemma OpensFit(groups: seq<seq<string>>, laps: seq<string>, unit: string, lap: string, sep: string, size: int)
    requires |groups| == |laps| && GroupsFit(groups, laps, sep, size)
    ensures GroupsFit(groups + [[unit]], laps + [lap], sep, size)
  {
  }

  lemma OpensFull(groups: seq<seq<string>>, laps: seq<string>, unit: string, lap: string, sep: string, size: int)
    requires |groups| == |laps| > 0 && GroupsFull(groups, laps, sep, size)
    requires |TextOf(laps[|laps| - 1], groups[|groups| - 1], sep)| + |unit| + 1 > size
    ensures GroupsFull(groups + [[unit]], laps + [lap], sep, size)
  {
    var more, laps' := groups + [[unit]], laps + [lap];
    forall k, m | 0 <= k < |more| && m == k + 1 < |more| ensures Full(laps'[k], more[k], more[m], sep, size) {
      assert more[k] == groups[k] && laps'[k] == laps[k];
      if m < |groups| {
        assert Full(laps[k], groups[k], groups[m], sep, size);
        assert more[m] == groups[m];
      } else {
        assert more[m] == [unit];
      }
    }
  }

  /** A unit that does not fit opens a group. */
  lemma Opens(units: seq<string>, groups: seq<seq<string>>, laps: seq<string>, unit: string, lap: string, sep: string, size: int)
    requires Greedy(units, groups, laps, sep, size) && groups != []
    requires |TextOf(laps[|laps| - 1], groups[|groups| - 1], sep)| + |unit| + 1 > size
    ensures Greedy(units + [unit], groups + [[unit]], laps + [lap], sep, size)
  {
    FlatOneMore(groups, [unit]);
    OpensFit(groups, laps, unit, lap, sep, size);
    OpensFull(groups, laps, unit, lap, sep, size);
  }

  lemma {:induction false} JoinStripped(units: seq<string>, sep: string)
    requires Words(units) && Blank(sep)
    ensures Stripped(JoinWith(units, sep)) && (JoinWith(units, sep) == "" <==> units == [])
  {
    if |units| > 1 {
      JoinStripped(units[..|units| - 1], sep);
      GluedParts(JoinWith(units[..|units| - 1], sep), sep, units[|units| - 1], "");
    }
  }

  // ----- sentences -----

  function Blanks(n: nat): (laps: seq<string>)
    ensures |laps| == n && forall k | 0 <= k < n :: laps[k] == ""
  {
    seq(n, (k: nat) => "")
  }

  /** The chunks so far: all groups but the last are done, and the last is being built. */
  ghost predicate Built(a: Acc, head: seq<Cut>, groups: seq<seq<string>>, laps: seq<string>, sep: string) {
    && |groups| == |laps| > 0
    && a.done == head + CutsOf(groups[..|groups| - 1], laps[..|laps| - 1], sep)
    && a.cur == TextOf(laps[|laps| - 1], groups[|groups| - 1], sep)
    && a.lap == laps[|laps| - 1]
    && a.cur != "" && Stripped(a.cur)
  }

  lemma CutsOneMore(groups: seq<seq<string>>, laps: seq<string>, sep: string)
    requires |groups| == |laps| > 0
    ensures CutsOf(groups, laps, sep) == CutsOf(groups[..|groups| - 1], laps[..|laps| - 1], sep)
              + [Cut(laps[|laps| - 1], TextOf(laps[|laps| - 1], groups[|groups| - 1], sep))]
  {
  }

  /** Finishing the last chunk. */
  lemma EmitBuilt(a: Acc, head: seq<Cut>, groups: seq<seq<string>>, laps: seq<string>, sep: string)
    requires Built(a, head, groups, laps, sep)
    ensures Emit(a) == head + CutsOf(groups, laps, sep)
  {
    StrippedIsFixed(a.cur);
    CutsOneMore(groups, laps, sep);
  }

  /** A unit joins what is being built. */
  lemma BuiltJoins(a: Acc, head: seq<Cut>, groups: seq<seq<string>>, laps: seq<string>, unit: string, sep: string)
    requires Built(a, head, groups, laps, sep) && groups[|groups| - 1] != []
    requires unit != "" && Stripped(unit) && Blank(sep)
    ensures Built(a.(cur := a.cur + sep + unit), head, groups[..|groups| - 1] + [groups[|groups| - 1] + [unit]], laps, sep)
  {
    var last := groups[|groups| - 1];
    var groups' := groups[..|groups| - 1] + [last + [unit]];
    TextGrows(laps[|laps| - 1], last, unit, sep);
    GluedParts(a.cur, sep, unit, "");
    assert groups'[..|groups'| - 1] == groups[..|groups| - 1];
  }

  /** A unit opens the next one, behind an overlap. */
  lemma BuiltOpens(a: Acc, head: seq<Cut>, groups: seq<seq<string>>, laps: seq<string>, unit: string, lap: string, sep: string)
    requires Built(a, head, groups, laps, sep)
    requires unit != "" && Stripped(unit) && Stripped(lap) && Blank(sep)
    ensures Built(Acc(Emit(a), if lap != "" then lap + sep + unit else unit, lap), head, groups + [[unit]], laps + [lap], sep)
  {
    EmitBuilt(a, head, groups, laps, sep);
    TextOpens(lap, unit, sep);
    if lap != "" {
      GluedParts(lap, sep, unit, "");
    }
    assert (groups + [[unit]])[..|groups|] == groups && (laps + [lap])[..|laps|] == laps;
  }

  lemma FirstUnit(unit: string, sep: string, size: int)
    requires unit != "" && Stripped(unit)
    ensures Greedy([unit], [[unit]], [""], sep, size)
    ensures forall done: seq<Cut> :: Built(Acc(done, unit, ""), done, [[unit]], [""], sep)
  {
    TextOpens("", unit, sep);
    var groups, laps := [[unit]], [""];
    assert groups[..0] == [] && laps[..0] == [];
    assert Flat(groups) == Flat([]) + [unit];
    assert CutsOf([], [], sep) == [];
    assert forall done: seq<Cut> :: done + [] == done;
  }

  lemma AddSentencesOneMore(a: Acc, ss: seq<string>, sent: string, size: int)
    ensures AddSentences(a, ss + [sent], size) == AddSentence(AddSentences(a, ss, size), sent, size)
  {
    assert (ss + [sent])[..|ss|] == ss;
  }

  lemma SentenceJoins(ss: seq<string>, a: Acc, sent: string, gs: seq<seq<string>>, ls: seq<string>, size: int)
    returns (groups: seq<seq<string>>)
    requires Greedy(ss, gs, ls, " ", size) && Built(a, [], gs, ls, " ")
    requires sent != "" && Stripped(sent) && |a.cur| + |sent| + 1 <= size
    ensures |groups| == |gs| && Greedy(ss + [sent], groups, ls, " ", size) && Built(AddSentence(a, sent, size), [], groups, ls, " ")
  {
    var front, last := gs[..|gs| - 1], gs[|gs| - 1];
    assert gs == front + [last];
    Joins(ss, front, last, ls, sent, " ", size);
    BuiltJoins(a, [], gs, ls, sent, " ");
    groups := front + [last + [sent]];
  }

  lemma SentenceOpens(ss: seq<string>, a: Acc, sent: string, gs: seq<seq<string>>, ls: seq<string>, size: int)
    requires Greedy(ss, gs, ls, " ", size) && Built(a, [], gs, ls, " ")
    requires sent != "" && Stripped(sent) && |a.cur| + |sent| + 1 > size
    ensures Greedy(ss + [sent], gs + [[sent]], ls + [""], " ", size)
    ensures Built(AddSentence(a, sent, size), [], gs + [[sent]], ls + [""], " ")
  {
    Opens(ss, gs, ls, sent, "", " ", size);
    BuiltOpens(a, [], gs, ls, sent, "", " ");
  }

  lemma BlanksOneMore(n: nat)
    ensures Blanks(n) + [""] == Blanks(n + 1)
  {
  }

  lemma FirstSentence(sent: string, size: int)
    requires sent != "" && Stripped(sent)
    ensures Greedy([sent], [[sent]], Blanks(1), " ", size)
    ensures Built(AddSentence(Acc([], "", ""), sent, size), [], [[sent]], Blanks(1), " ")
  {
    FirstUnit(sent, " ", size);
    assert Blanks(1) == [""];
  }

  /** The sentences of a paragraph that is too long to open a chunk are cut greedily, with single spaces. */
  lemma {:induction false} SentencesGreedy(ss: seq<string>, size: int) returns (groups: seq<seq<string>>)
    requires Words(ss) && ss != []
    ensures Greedy(ss, groups, Blanks(|groups|), " ", size)
    ensures Built(AddSentences(Acc([], "", ""), ss, size), [], groups, Blanks(|groups|), " ")
  {
    var before, sent := ss[..|ss| - 1], ss[|ss| - 1];
    assert before + [sent] == ss;
    AddSentencesOneMore(Acc([], "", ""), before, sent, size);
    if before == [] {
      FirstSentence(sent, size);
      groups := [[sent]];
    } else {
      var gs := SentencesGreedy(before, size);
      var a := AddSentences(Acc([], "", ""), before, size);
      if |a.cur| + |sent| + 1 <= size {
        groups := SentenceJoins(before, a, sent, gs, Blanks(|gs|), size);
      } else {
        SentenceOpens(before, a, sent, gs, Blanks(|gs|), size);
        BlanksOneMore(|gs|);
        groups := gs + [[sent]];
      }
    }
  }

  // ----- paragraphs -----

  /** What the first paragraph is cut into: nothing is cut if it fits, else its sentences are. */
  ghost predicate HeadPieces(para: string, pieces: seq<string>, size: int) {
    if |para| + 1 <= size then pieces == [para]
    else exists groups :: Greedy(Sentences(para), groups, Blanks(|groups|), " ", size) && pieces == Texts(groups)
  }

  function Texts(groups: seq<seq<string>>): (ts: seq<string>)
    ensures |ts| == |groups| && forall k | 0 <= k < |ts| :: ts[k] == JoinWith(groups[k], " ")
  {
    seq(|groups|, k requires 0 <= k < |groups| => JoinWith(groups[k], " "))
  }

  function Alone(pieces: seq<string>): (cuts: seq<Cut>)
    ensures |cuts| == |pieces| && forall k | 0 <= k < |cuts| :: cuts[k] == Cut("", pieces[k])
  {
    seq(|pieces|, k requires 0 <= k < |pieces| => Cut("", pieces[k]))
  }

  /** The first chunk has no overlap, and every other one that of the chunk before it. */
  ghost predicate LapsOf(groups: seq<seq<string>>, laps: seq<string>, overlap: int) {
    && |groups| == |laps| > 0 && laps[0] == ""
    && forall k, m | 0 <= k < |laps| && m == k + 1 < |laps| :: laps[m] == Overlap(TextOf(laps[k], groups[k], "\n\n"), overlap)
  }

  /** The paragraphs so far are cut greedily; the last piece of the first one counts as a paragraph. */
  ghost predicate CutGreedily(ps: seq<string>, a: Acc, pieces: seq<string>, groups: seq<seq<string>>, laps: seq<string>, size: int, overlap: int) {
    && ps != [] && pieces != [] && HeadPieces(ps[0], pieces, size)
    && Greedy([pieces[|pieces| - 1]] + ps[1..], groups, laps, "\n\n", size)
    && LapsOf(groups, laps, overlap)
    && Built(a, Alone(pieces[..|pieces| - 1]), groups, laps, "\n\n")
  }

  lemma SentencePieces(groups: seq<seq<string>>, a: Acc)
    requires groups != [] && Built(a, [], groups, Blanks(|groups|), " ")
    ensures a == Acc(Alone(Texts(groups)[..|groups| - 1]), Texts(groups)[|groups| - 1], "")
  {
    var n := |groups| - 1;
    assert a.done == CutsOf(groups[..n], Blanks(|groups|)[..n], " ");
    assert a.done == Alone(Texts(groups)[..n]);
  }

  lemma HeadGreedy(para: string, size: int, overlap: int) returns (pieces: seq<string>)
    requires para != "" && Stripped(para)
    ensures pieces != [] && HeadPieces(para, pieces, size)
    ensures AddParagraph(Acc([], "", ""), para, size, overlap) == Acc(Alone(pieces[..|pieces| - 1]), pieces[|pieces| - 1], "")
    ensures pieces[|pieces| - 1] != "" && Stripped(pieces[|pieces| - 1])
  {
    if |para| + 1 <= size {
      pieces := [para];
      assert Alone(pieces[..0]) == [];
    } else {
      PiecesKeepInk(SentenceGap, para);
      StrippedIsFixed(para);
      StripKeepsInk(para);
      var groups := SentencesGreedy(Sentences(para), size);
      pieces := Texts(groups);
      SentencePieces(groups, AddSentences(Acc([], "", ""), Sentences(para), size));
    }
  }

  lemma {:induction false} ParagraphsGreedy(ps: seq<string>, size: int, overlap: int)
    returns (pieces: seq<string>, groups: seq<seq<string>>, laps: seq<string>)
    requires Words(ps) && ps != []
    ensures CutGreedily(ps, AddParagraphs(ps, size, overlap), pieces, groups, laps, size, overlap)
  {
    var before, para := ps[..|ps| - 1], ps[|ps| - 1];
    assert before + [para] == ps;
    AddParagraphsOneMore(before, para, size, overlap);
    if before == [] {
      pieces := HeadGreedy(para, size, overlap);
      var unit := pieces[|pieces| - 1];
      FirstUnit(unit, "\n\n", size);
      groups, laps := [[unit]], [""];
      assert [unit] + ps[1..] == [unit];
    } else {
      var gs, ls;
      pieces, gs, ls := ParagraphsGreedy(before, size, overlap);
      var a := AddParagraphs(before, size, overlap);
      if |a.cur| + |para| + 1 <= size {
        laps := ls;
        groups := ParagraphJoins(before, para, a, pieces, gs, ls, size, overlap);
      } else {
        ParagraphOpens(before, para, a, pieces, gs, ls, size, overlap);
        groups, laps := gs + [[para]], ls + [Overlap(a.cur, overlap)];
      }
    }
  }

  lemma LapsJoined(gs: seq<seq<string>>, ls: seq<string>, last: seq<string>, overlap: int)
    requires LapsOf(gs, ls, overlap)
    ensures LapsOf(gs[|gs| - 1 := last], ls, overlap)
  {
    var groups := gs[|gs| - 1 := last];
    forall k, m | 0 <= k < |ls| && m == k + 1 < |ls| ensures ls[m] == Overlap(TextOf(ls[k], groups[k], "\n\n"), overlap) {
      assert groups[k] == gs[k];
    }
  }

  lemma LapsOpened(gs: seq<seq<string>>, ls: seq<string>, group: seq<string>, o: string, overlap: int)
    requires LapsOf(gs, ls, overlap) && o == Overlap(TextOf(ls[|ls| - 1], gs[|gs| - 1], "\n\n"), overlap)
    ensures LapsOf(gs + [group], ls + [o], overlap)
  {
    var groups, laps := gs + [group], ls + [o];
    forall k, m | 0 <= k < |laps| && m == k + 1 < |laps| ensures laps[m] == Overlap(TextOf(laps[k], groups[k], "\n\n"), overlap) {
      assert groups[k] == gs[k] && laps[k] == ls[k] && (m < |ls| ==> laps[m] == ls[m]);
    }
  }

  lemma UnitsOneMore(piece: string, ps: seq<string>, para: string)
    requires ps != []
    ensures [piece] + (ps + [para])[1..] == [piece] + ps[1..] + [para]
  {
  }

  lemma PieceJoins(piece: string, ps: seq<string>, para: string, gs: seq<seq<string>>, ls: seq<string>, size: int)
    requires ps != [] && gs != [] && Greedy([piece] + ps[1..], gs, ls, "\n\n", size)
    requires |TextOf(ls[|ls| - 1], gs[|gs| - 1], "\n\n")| + |para| + 1 <= size
    ensures Greedy([piece] + (ps + [para])[1..], gs[..|gs| - 1] + [gs[|gs| - 1] + [para]], ls, "\n\n", size)
  {
    UnitsOneMore(piece, ps, para);
    assert gs == gs[..|gs| - 1] + [gs[|gs| - 1]];
    Joins([piece] + ps[1..], gs[..|gs| - 1], gs[|gs| - 1], ls, para, "\n\n", size);
  }

  lemma ParagraphJoins(ps: seq<string>, para: string, a: Acc, pieces: seq<string>, gs: seq<seq<string>>, ls: seq<string>, size: int, overlap: int)
    returns (groups: seq<seq<string>>)
    requires CutGreedily(ps, a, pieces, gs, ls, size, overlap) && para != "" && Stripped(para)
    requires |a.cur| + |para| + 1 <= size
    ensures CutGreedily(ps + [para], AddParagraph(a, para, size, overlap), pieces, groups, ls, size, overlap)
  {
    var last := gs[|gs| - 1];
    groups := gs[..|gs| - 1] + [last + [para]];
    PieceJoins(pieces[|pieces| - 1], ps, para, gs, ls, size);
    BuiltJoins(a, Alone(pieces[..|pieces| - 1]), gs, ls, para, "\n\n");
    assert groups == gs[|gs| - 1 := last + [para]];
    LapsJoined(gs, ls, last + [para], overlap);
  }

  lemma ParagraphOpens(ps: seq<string>, para: string, a: Acc, pieces: seq<string>, gs: seq<seq<string>>, ls: seq<string>, size: int, overlap: int)
    requires CutGreedily(ps, a, pieces, gs, ls, size, overlap) && para != "" && Stripped(para)
    requires |a.cur| + |para| + 1 > size
    ensures CutGreedily(ps + [para], AddParagraph(a, para, size, overlap), pieces, gs + [[para]],
                        ls + [Overlap(a.cur, overlap)], size, overlap)
  {
    var o := Overlap(a.cur, overlap);
    OverlapIsStripped(a.cur, overlap);
    UnitsOneMore(pieces[|pieces| - 1], ps, para);
    Opens([pieces[|pieces| - 1]] + ps[1..], gs, ls, para, o, "\n\n", size);
    BuiltOpens(a, Alone(pieces[..|pieces| - 1]), gs, ls, para, o, "\n\n");
    LapsOpened(gs, ls, [para], o, overlap);
  }

  /** The chunks of a page are exactly the greedy ones.  A first paragraph too long for a chunk is cut between
      sentences, which share a chunk as long as they fit.  From the last of these pieces on, paragraphs share
      a chunk as long as they fit; each further chunk begins with the overlap of the one before. */
  lemma CutsAreGreedy(text: string, size: int, overlap: int)
    returns (pieces: seq<string>, groups: seq<seq<string>>, laps: seq<string>)
    requires Paragraphs(text) != []
    ensures pieces != [] && HeadPieces(Paragraphs(text)[0], pieces, size)
    ensures Greedy([pieces[|pieces| - 1]] + Paragraphs(text)[1..], groups, laps, "\n\n", size)
    ensures LapsOf(groups, laps, overlap)
    ensures Cuts(text, size, overlap) == Alone(pieces[..|pieces| - 1]) + CutsOf(groups, laps, "\n\n")
  {
    PiecesKeepInk(BlankLine, text);
    pieces, groups, laps := ParagraphsGreedy(Paragraphs(text), size, overlap);
    EmitBuilt(AddParagraphs(Paragraphs(text), size, overlap), Alone(pieces[..|pieces| - 1]), groups, laps, "\n\n");
  }

  /** A group of several units is no longer than the size, and its separator less one. */
  lemma SeveralFit(lap: string, group: seq<string>, sep: string, size: int)
    requires Fits(lap, group, sep, size) && |group| > 1
    ensures |TextOf(lap, group, sep)| <= size + |sep| - 1
  {
    var n := |group| - 1;
    assert group == group[..n] + [group[n]];
    TextGrows(lap, group[..n], group[n], sep);
  }
}
