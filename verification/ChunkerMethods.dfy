/** The chunker as it is written: loops over a growing current chunk, and chunk objects that are
    renumbered once all pages have been cut. */
module ChunkerMethods {
  import opened Text
  import opened Chunker

  /** An identifier is the document's id and a number, rendered into one string by the code. */
  datatype ChunkId = ChunkId(document: string, index: nat)

  datatype Page = Page(text: string, number: int)

  /** An optional integer argument; like the code, zero counts as not given. */
  datatype Arg = NotGiven | Given(n: int)

  function OrElse(a: Arg, default: int): int {
    if a.NotGiven? || a.n == 0 then default else a.n
  }

  class Chunk {
    const text: string
    const pageNumber: int
    const documentId: string
    var chunkIndex: nat
    var id: ChunkId

    constructor (text: string, pageNumber: int, chunkIndex: nat, documentId: string)
      ensures this.text == text && this.pageNumber == pageNumber && this.documentId == documentId
      ensures this.chunkIndex == chunkIndex && id == ChunkId(documentId, chunkIndex)
    {
      this.text, this.pageNumber, this.documentId := text, pageNumber, documentId;
      this.chunkIndex, id := chunkIndex, ChunkId(documentId, chunkIndex);
    }
  }

  /** A chunk's text and the page it comes from. */
  type Piece = (string, int)

  function PagePieces(cuts: seq<Cut>, page: int): (ps: seq<Piece>)
    ensures |ps| == |cuts| && forall i | 0 <= i < |ps| :: ps[i] == (cuts[i].text, page)
  {
    seq(|cuts|, i requires 0 <= i < |cuts| => (cuts[i].text, page))
  }

  function AllPieces(pages: seq<Page>, size: int, overlap: int): seq<Piece> {
    if pages == [] then []
    else
      var last := pages[|pages| - 1];
      AllPieces(pages[..|pages| - 1], size, overlap) + PagePieces(Cuts(last.text, size, overlap), last.number)
  }

  /** Distinct chunk objects carrying the given pieces of one document, in order. */
  ghost predicate Carry(chunks: seq<Chunk>, pieces: seq<Piece>, documentId: string) {
    && |chunks| == |pieces|
    && (forall i, j | 0 <= i < j < |chunks| :: chunks[i] != chunks[j])
    && (forall i | 0 <= i < |chunks| ::
          (chunks[i].text, chunks[i].pageNumber) == pieces[i] && chunks[i].documentId == documentId)
  }

  ghost predicate Numbered(chunks: seq<Chunk>, n: nat)
    requires n <= |chunks|
    reads chunks
  {
    forall i | 0 <= i < n :: chunks[i].chunkIndex == i && chunks[i].id == ChunkId(chunks[i].documentId, i)
  }

  method ComputeOverlap(text: string, overlapChars: int) returns (overlap: string)
    ensures overlap == Overlap(text, overlapChars)
  {
    if overlapChars <= 0 || text == "" {
      return "";
    }
    var sentences := Sentences(text);
    overlap := "";
    var k := |sentences|;
    while k > 0
      invariant 0 <= k <= |sentences|
      invariant Collect(sentences, k, overlap, overlapChars) == Collect(sentences, |sentences|, "", overlapChars)
    {
      var candidate := if overlap != "" then sentences[k - 1] + " " + overlap else sentences[k - 1];
      if |candidate| > overlapChars {
        break;
      }
      overlap := candidate;
      k := k - 1;
    }
    overlap := Strip(overlap);
  }

  /** Appends the current chunk, stripped, to the chunks made so far. */
  method Append(chunks: seq<Chunk>, ghost done: seq<Cut>, current: string, ghost lap: string, page: int, documentId: string)
    returns (chunks': seq<Chunk>)
    requires Carry(chunks, PagePieces(done, page), documentId)
    ensures Carry(chunks', PagePieces(done + [Cut(lap, Strip(current))], page), documentId)
    ensures |chunks'| == |chunks| + 1 && chunks' == chunks + [chunks'[|chunks|]] && fresh(chunks'[|chunks|])
  {
    var chunk := new Chunk(Strip(current), page, |chunks|, documentId);
    chunks' := chunks + [chunk];
  }

  /** The sentences of a paragraph that is too long to open a chunk. */
  method CutSentences(chunks: seq<Chunk>, ghost before: Acc, para: string, size: int, page: int, documentId: string)
    returns (chunks': seq<Chunk>, current: string)
    requires before.cur == "" && Carry(chunks, PagePieces(before.done, page), documentId)
    ensures var after := AddSentences(before, Sentences(para), size);
      current == after.cur && Carry(chunks', PagePieces(after.done, page), documentId)
    ensures forall c | c in chunks' :: c in chunks || fresh(c)
  {
    chunks', current := chunks, "";
    var sentences := Sentences(para);
    ghost var acc := before;
    for q := 0 to |sentences|
      invariant acc == AddSentences(before, sentences[..q], size) && acc.cur == current
      invariant Carry(chunks', PagePieces(acc.done, page), documentId)
      invariant forall c | c in chunks' :: c in chunks || fresh(c)
    {
      var sent := sentences[q];
      assert sentences[..q + 1][..q] == sentences[..q];
      if |current| + |sent| + 1 <= size {
        if current != "" {
          current := current + " " + sent;
        } else {
          current := sent;
        }
      } else {
        if current != "" {
          chunks' := Append(chunks', acc.done, current, acc.lap, page, documentId);
        }
        current := sent;
      }
      acc := AddSentence(acc, sent, size);
    }
    assert sentences[..|sentences|] == sentences;
  }

  /** One paragraph joins the current chunk, opens the next one, or is itself cut. */
  method TakeParagraph(chunks: seq<Chunk>, ghost before: Acc, current: string, para: string, size: int, overlap: int,
                       page: int, documentId: string)
    returns (chunks': seq<Chunk>, current': string)
    requires before.cur == current && Carry(chunks, PagePieces(before.done, page), documentId)
    ensures var after := AddParagraph(before, para, size, overlap);
      current' == after.cur && Carry(chunks', PagePieces(after.done, page), documentId)
    ensures forall c | c in chunks' :: c in chunks || fresh(c)
  {
    if |current| + |para| + 1 <= size {
      if current != "" {
        return chunks, current + "\n\n" + para;
      } else {
        return chunks, para;
      }
    }
    if current != "" {
      chunks' := Append(chunks, before.done, current, before.lap, page, documentId);
      var overlapText := ComputeOverlap(current, overlap);
      current' := if overlapText != "" then overlapText + "\n\n" + para else para;
    } else {
      chunks', current' := CutSentences(chunks, before, para, size, page, documentId);
    }
  }

  method ChunkDocument(text: string, documentId: string, page: int, sizeArg: Arg, overlapArg: Arg,
                       defaultSize: int, defaultOverlap: int) returns (chunks: seq<Chunk>)
    ensures Carry(chunks, PagePieces(Cuts(text, OrElse(sizeArg, defaultSize), OrElse(overlapArg, defaultOverlap)), page), documentId)
    ensures forall c | c in chunks :: fresh(c)
  {
    var size, overlap := OrElse(sizeArg, defaultSize), OrElse(overlapArg, defaultOverlap);
    var paragraphs := Paragraphs(text);
    var current;
    ghost var acc;
    chunks, current, acc := TakeParagraphs(paragraphs, size, overlap, page, documentId);
    if current != "" {
      chunks := Append(chunks, acc.done, current, acc.lap, page, documentId);
    }
  }

  /** The loop over the paragraphs of a page. */
  method TakeParagraphs(paragraphs: seq<string>, size: int, overlap: int, page: int, documentId: string)
    returns (chunks: seq<Chunk>, current: string, ghost acc: Acc)
    ensures acc == AddParagraphs(paragraphs, size, overlap) && acc.cur == current
    ensures Carry(chunks, PagePieces(acc.done, page), documentId)
    ensures forall c | c in chunks :: fresh(c)
  {
    chunks, current, acc := [], "", Acc([], "", "");
    for p := 0 to |paragraphs|
      invariant acc == AddParagraphs(paragraphs[..p], size, overlap) && acc.cur == current
      invariant Carry(chunks, PagePieces(acc.done, page), documentId)
      invariant forall c | c in chunks :: fresh(c)
    {
      assert paragraphs[..p + 1] == paragraphs[..p] + [paragraphs[p]];
      AddParagraphsOneMore(paragraphs[..p], paragraphs[p], size, overlap);
      chunks, current := TakeParagraph(chunks, acc, current, paragraphs[p], size, overlap, page, documentId);
      acc := AddParagraph(acc, paragraphs[p], size, overlap);
    }
    assert paragraphs[..|paragraphs|] == paragraphs;
  }

  method CutPages(pages: seq<Page>, documentId: string, size: int, overlap: int, defaultSize: int, defaultOverlap: int)
    returns (chunks: seq<Chunk>)
    ensures Carry(chunks, AllPieces(pages, OrElse(Given(size), defaultSize), OrElse(Given(overlap), defaultOverlap)), documentId)
    ensures forall c | c in chunks :: fresh(c)
  {
    ghost var n, o := OrElse(Given(size), defaultSize), OrElse(Given(overlap), defaultOverlap);
    chunks := [];
    for p := 0 to |pages|
      invariant Carry(chunks, AllPieces(pages[..p], n, o), documentId)
      invariant forall c | c in chunks :: fresh(c)
    {
      assert pages[..p + 1][..p] == pages[..p];
      var more := ChunkDocument(pages[p].text, documentId, pages[p].number, Given(size), Given(overlap),
                                defaultSize, defaultOverlap);
      assert forall j | 0 <= j < |more| :: more[j] in more;
      CarryBoth(chunks, AllPieces(pages[..p], n, o), more, PagePieces(Cuts(pages[p].text, n, o), pages[p].number), documentId);
      chunks := chunks + more;
    }
    assert pages[..|pages|] == pages;
  }

  lemma CarryBoth(a: seq<Chunk>, ps: seq<Piece>, b: seq<Chunk>, qs: seq<Piece>, documentId: string)
    requires Carry(a, ps, documentId) && Carry(b, qs, documentId)
    requires forall i, j | 0 <= i < |a| && 0 <= j < |b| :: a[i] != b[j]
    ensures Carry(a + b, ps + qs, documentId)
  {
  }

  /** All pages, in order; the numbering of the single pages is then replaced by one that runs through
      the document, so the identifiers are distinct. */
  method ChunkPages(pages: seq<Page>, documentId: string, size: int, overlap: int, defaultSize: int, defaultOverlap: int)
    returns (chunks: seq<Chunk>)
    ensures Carry(chunks, AllPieces(pages, OrElse(Given(size), defaultSize), OrElse(Given(overlap), defaultOverlap)), documentId)
    ensures Numbered(chunks, |chunks|)
    ensures forall i, j | 0 <= i < j < |chunks| :: chunks[i].id != chunks[j].id
    ensures forall c | c in chunks :: fresh(c)
  {
    chunks := CutPages(pages, documentId, size, overlap, defaultSize, defaultOverlap);
    for i := 0 to |chunks|
      invariant Numbered(chunks, i)
    {
      assert chunks[i] in chunks;
      chunks[i].chunkIndex := i;
      chunks[i].id := ChunkId(chunks[i].documentId, i);
    }
  }

  // ----- a document that is not blank yields at least one chunk -----

  function JoinPages(pages: seq<Page>): string {
    if pages == [] then "" else if |pages| == 1 then pages[0].text
    else JoinPages(pages[..|pages| - 1]) + "\n\n" + pages[|pages| - 1].text
  }

  /** The pieces of a document are those of its pages, one page after the other. */
  lemma OnePageMore(before: seq<Page>, last: Page, size: int, overlap: int)
    ensures AllPieces(before + [last], size, overlap) ==
            AllPieces(before, size, overlap) + PagePieces(Cuts(last.text, size, overlap), last.number)
  {
    assert (before + [last])[..|before|] == before;
  }

  lemma OnePageInk(before: seq<Page>, last: Page)
    ensures Ink(JoinPages(before + [last])) == Ink(JoinPages(before)) + Ink(last.text)
  {
    var all := before + [last];
    assert all[..|all| - 1] == before;
    if before != [] {
      InkConcat(JoinPages(before) + "\n\n", last.text);
      InkConcat(JoinPages(before), "\n\n");
      BlankHasNoInk("\n\n");
    }
  }

  lemma {:induction false} InkWhenPieces(pages: seq<Page>, size: int, overlap: int)
    ensures Ink(JoinPages(pages)) == "" <==> AllPieces(pages, size, overlap) == []
  {
    if pages != [] {
      var before, last := pages[..|pages| - 1], pages[|pages| - 1];
      assert pages == before + [last];
      InkWhenPieces(before, size, overlap);
      OnePageMore(before, last, size, overlap);
      OnePageInk(before, last);
      ChunksExactlyWhenInk(last.text, size, overlap);
    }
  }

  /** The text check made before chunking decides exactly whether there will be a chunk. */
  lemma {:induction false} ChunksExactlyWhenNotBlank(pages: seq<Page>, size: int, overlap: int)
    ensures Strip(JoinPages(pages)) == "" <==> AllPieces(pages, size, overlap) == []
  {
    StripKeepsInk(JoinPages(pages));
    InkWhenPieces(pages, size, overlap);
  }
}
