/** Ingesting a document: its status row in the database and its chunks in the vector store move
    together through a sequence of calls each of which may fail. */
module Ingestion {
  import opened Text
  import opened ChunkerMethods

  datatype Status = Uploaded | Processing | Ready | Failed

  datatype Row = Row(status: Status, pageCount: int, chunkCount: int, hasError: bool)

  type Store = map<ChunkId, string>

  datatype Extraction = Unreadable | Extracted(pages: seq<Page>)

  /** What the environment does during one run: which calls succeed, what the PDF yields, and how many
      batches the vector store takes before it fails, if it fails. */
  datatype Script = Script(found: bool, savesProcessing: bool, extraction: Extraction, savesPageCount: bool,
                           connectsToDelete: bool, deletes: bool, embeds: bool, connectsToAdd: bool,
                           batchesTaken: nat, savesReady: bool, savesFailed: bool)

  datatype State = State(row: Row, store: Store)

  datatype Settings = Settings(size: int, overlap: int)

  const BATCH: nat := 100

  function Min(a: int, b: int): int { if a < b then a else b }

  function BatchCount(n: nat): nat { (n + BATCH - 1) / BATCH }

  function Forget(store: Store, doc: string): Store {
    map id | id in store && id.document != doc :: store[id]
  }

  /** collection.add keeps an entry that is already there. */
  function AddRange(store: Store, doc: string, pieces: seq<Piece>, lo: nat, hi: nat): Store
    requires lo <= hi <= |pieces|
  {
    (map k: nat | lo <= k < hi :: ChunkId(doc, k) := pieces[k].0) + store
  }

  /** How many of n chunks the first b batches hold. */
  function Upto(n: nat, b: nat): nat { Min(b * BATCH, n) }

  /** The store once the first b batches have been added. */
  function AfterBatches(store: Store, doc: string, pieces: seq<Piece>, b: nat): Store {
    AddRange(store, doc, pieces, 0, Upto(|pieces|, b))
  }

  function PiecesOf(s: Settings, pages: seq<Page>): seq<Piece> { AllPieces(pages, s.size, s.overlap) }

  /** The exception handler: the failure is recorded unless that fails too. */
  function Fail(st: State, script: Script): State {
    if script.savesFailed then st.(row := st.row.(status := Failed, hasError := true)) else st
  }

  function StoreAndFinish(st: State, doc: string, pieces: seq<Piece>, script: Script): State {
    if !script.embeds || !script.connectsToAdd then Fail(st, script)
    else
      var n := BatchCount(|pieces|);
      if script.batchesTaken < n then Fail(st.(store := AfterBatches(st.store, doc, pieces, script.batchesTaken)), script)
      else
        var st' := st.(store := AfterBatches(st.store, doc, pieces, n));
        if !script.savesReady then Fail(st', script)
        else st'.(row := st.row.(chunkCount := |pieces|, status := Ready, hasError := false))
  }

  function Ingest(s: Settings, st: State, doc: string, script: Script): State {
    if !script.found then st
    else if !script.savesProcessing then Fail(st, script)
    else
      var st1 := st.(row := st.row.(status := Processing));
      if script.extraction.Unreadable? || Strip(JoinPages(script.extraction.pages)) == "" || !script.savesPageCount
      then Fail(st1, script)
      else
        var st2 := st1.(row := st1.row.(pageCount := |script.extraction.pages|));
        if !script.connectsToDelete then Fail(st2, script)
        else
          var st3 := if script.deletes then st2.(store := Forget(st2.store, doc)) else st2;
          StoreAndFinish(st3, doc, PiecesOf(s, script.extraction.pages), script)
  }

  // ----- what the store holds after a number of batches -----

  /** The numbers under which a document has chunks. */
  function Numbers(store: Store, doc: string): set<nat> {
    set id | id in store && id.document == doc :: id.index
  }

  function Below(n: int): (ks: set<nat>)
    ensures forall k: nat :: k in ks <==> k < n
  {
    if n <= 0 then {} else Below(n - 1) + {n - 1}
  }

  lemma InRange(store: Store, doc: string, pieces: seq<Piece>, lo: nat, hi: nat, id: ChunkId)
    requires lo <= hi <= |pieces|
    ensures var after := AddRange(store, doc, pieces, lo, hi);
      && (id in after <==> id in store || (id.document == doc && lo <= id.index < hi))
      && (id in after ==> after[id] == if id in store then store[id] else pieces[id.index].0)
  {
    assert id == ChunkId(id.document, id.index);
  }

  lemma RangesJoin(store: Store, doc: string, pieces: seq<Piece>, mid: nat, hi: nat)
    requires mid <= hi <= |pieces|
    ensures AddRange(AddRange(store, doc, pieces, 0, mid), doc, pieces, mid, hi) == AddRange(store, doc, pieces, 0, hi)
  {
    var half, once := AddRange(store, doc, pieces, 0, mid), AddRange(store, doc, pieces, 0, hi);
    var twice := AddRange(half, doc, pieces, mid, hi);
    forall id: ChunkId ensures (id in once <==> id in twice) && (id in once ==> once[id] == twice[id]) {
      InRange(store, doc, pieces, 0, mid, id);
      InRange(store, doc, pieces, 0, hi, id);
      InRange(half, doc, pieces, mid, hi, id);
    }
    SameMap(once, twice);
  }

  lemma SameMap(a: Store, b: Store)
    requires forall id: ChunkId :: (id in a <==> id in b) && (id in a ==> a[id] == b[id])
    ensures a == b
  {
  }

  lemma CountingBatches(n: nat, b: nat)
    ensures b * BATCH < n <==> b < BatchCount(n)
    ensures b * BATCH < n + BATCH <==> b <= BatchCount(n)
  {
  }

  lemma NumbersAfterAdd(store: Store, doc: string, pieces: seq<Piece>, hi: nat)
    requires hi <= |pieces|
    ensures Numbers(AddRange(store, doc, pieces, 0, hi), doc) == Numbers(store, doc) + Below(hi)
    ensures forall id: ChunkId | id.document != doc ::
      (id in AddRange(store, doc, pieces, 0, hi) <==> id in store)
      && (id in store ==> AddRange(store, doc, pieces, 0, hi)[id] == store[id])
  {
    var after := AddRange(store, doc, pieces, 0, hi);
    forall k: nat ensures k in Numbers(after, doc) <==> k in Numbers(store, doc) + Below(hi) {
      assert k in Numbers(after, doc) <==> ChunkId(doc, k) in after;
      assert k in Numbers(store, doc) <==> ChunkId(doc, k) in store;
    }
  }

  lemma FullBatches(n: nat)
    ensures Upto(n, BatchCount(n)) == n
    ensures n > 0 ==> BatchCount(n) > 0
  {
  }

  /** The chunks the store holds for the document before anything is added. */
  function Leftovers(st: State, doc: string, script: Script): set<nat> {
    if script.deletes then {} else Numbers(st.store, doc)
  }

  lemma StoredNumbers(s: Settings, st: State, doc: string, script: Script, b: nat)
    requires script.extraction.Extracted?
    ensures var pieces := PiecesOf(s, script.extraction.pages);
      var base := if script.deletes then Forget(st.store, doc) else st.store;
      Numbers(AfterBatches(base, doc, pieces, b), doc) == Leftovers(st, doc, script) + Below(Upto(|pieces|, b))
  {
    var pieces := PiecesOf(s, script.extraction.pages);
    var base := if script.deletes then Forget(st.store, doc) else st.store;
    NumbersAfterAdd(base, doc, pieces, Upto(|pieces|, b));
  }

  // ----- how a run ends -----

  /** Nothing that the run needs goes wrong. */
  predicate AllWell(s: Settings, script: Script) {
    && script.extraction.Extracted? && Strip(JoinPages(script.extraction.pages)) != "" && script.savesPageCount
    && script.connectsToDelete && script.embeds && script.connectsToAdd
    && script.batchesTaken * BATCH >= |PiecesOf(s, script.extraction.pages)| && script.savesReady
  }

  lemma EnoughBatches(n: nat, b: nat)
    ensures b * BATCH >= n <==> b >= BatchCount(n)
  {
    CountingBatches(n, b);
  }

  /** The status a run leaves, from what happened alone.  A document that was found and could be marked PROCESSING
      ends READY exactly if nothing went wrong, whatever became of the deletion of old chunks; otherwise it
      ends FAILED, with an error message, if that could be saved, and is left PROCESSING if not.  One that
      could not be marked ends FAILED or is left as it was.  A document that is not found is left alone. */
  lemma StatusExactly(s: Settings, st: State, doc: string, script: Script)
    ensures var st' := Ingest(s, st, doc, script);
      && (!script.found ==> st' == st)
      && (script.found && script.savesProcessing ==>
            st'.row.status == if AllWell(s, script) then Ready else if script.savesFailed then Failed else Processing)
      && (script.found && !script.savesProcessing ==>
            st' == st.(row := st.row.(status := if script.savesFailed then Failed else st.row.status,
                                      hasError := script.savesFailed || st.row.hasError)))
      && (script.found && st'.row.status == Failed && st.row.status != Failed ==> st'.row.hasError)
  {
    if script.extraction.Extracted? {
      EnoughBatches(|PiecesOf(s, script.extraction.pages)|, script.batchesTaken);
    }
  }

  /** The run starts, and ends with the document READY.  What the row said before does not matter. */
  ghost predicate MadeReady(s: Settings, st: State, doc: string, script: Script) {
    script.found && script.savesProcessing && Ingest(s, st, doc, script).row.status == Ready
  }

  /** When a run makes a document READY, it has at least one chunk, its chunk count is the number of
      chunks cut, all of them are in the store, and what else the store holds for it is what the
      deletion left behind. */
  lemma ReadyMeansStored(s: Settings, st: State, doc: string, script: Script)
    requires MadeReady(s, st, doc, script)
    ensures var st' := Ingest(s, st, doc, script);
      && st'.row.chunkCount >= 1
      && Numbers(st'.store, doc) == Leftovers(st, doc, script) + Below(st'.row.chunkCount)
      && st'.row.pageCount == |script.extraction.pages|
      && !st'.row.hasError
  {
    var pieces := PiecesOf(s, script.extraction.pages);
    ChunksExactlyWhenNotBlank(script.extraction.pages, s.size, s.overlap);
    StoredNumbers(s, st, doc, script, BatchCount(|pieces|));
    FullBatches(|pieces|);
  }

  /** Under each of its numbers a READY document has the text of that chunk, except that a stale chunk the
      deletion left behind keeps its old text. */
  lemma ReadyTexts(s: Settings, st: State, doc: string, script: Script, k: nat)
    requires MadeReady(s, st, doc, script)
    requires k < |PiecesOf(s, script.extraction.pages)|
    ensures var st', id := Ingest(s, st, doc, script), ChunkId(doc, k);
      id in st'.store && st'.store[id] == if !script.deletes && id in st.store then st.store[id]
                                          else PiecesOf(s, script.extraction.pages)[k].0
  {
    var pieces := PiecesOf(s, script.extraction.pages);
    var base := if script.deletes then Forget(st.store, doc) else st.store;
    FullBatches(|pieces|);
    InRange(base, doc, pieces, 0, |pieces|, ChunkId(doc, k));
  }

  /** The store holds exactly the numbers from zero to the chunk count of a READY document if and only
      if the old chunks could be deleted or there were none beyond the new count.  A document
      ingested for the first time meets the condition. */
  lemma ReadyStoreIsExact(s: Settings, st: State, doc: string, script: Script)
    requires MadeReady(s, st, doc, script)
    ensures var st' := Ingest(s, st, doc, script);
      (Numbers(st'.store, doc) == Below(st'.row.chunkCount)) <==>
        (script.deletes || Numbers(st.store, doc) <= Below(|PiecesOf(s, script.extraction.pages)|))
  {
    ReadyMeansStored(s, st, doc, script);
  }

  /** st' holds, beyond the leftovers, the chunks of the first b batches, each with its text. */
  ghost predicate LeadingBatches(s: Settings, st: State, st': State, doc: string, script: Script, b: nat)
    requires script.extraction.Extracted?
  {
    var pieces := PiecesOf(s, script.extraction.pages);
    && b <= BatchCount(|pieces|)
    && Numbers(st'.store, doc) == Leftovers(st, doc, script) + Below(Upto(|pieces|, b))
    && forall k: nat | k in Numbers(st'.store, doc) ::
         st'.store[ChunkId(doc, k)] == if k in Leftovers(st, doc, script) then st.store[ChunkId(doc, k)] else pieces[k].0
  }

  lemma NumbersAreIds(store: Store, doc: string, k: nat)
    ensures k in Numbers(store, doc) <==> ChunkId(doc, k) in store
  {
  }

  lemma BatchesLead(s: Settings, st: State, st': State, doc: string, script: Script, b: nat)
    requires script.extraction.Extracted?
    requires var pieces := PiecesOf(s, script.extraction.pages);
      b <= BatchCount(|pieces|)
      && st'.store == AfterBatches(if script.deletes then Forget(st.store, doc) else st.store, doc, pieces, b)
    ensures LeadingBatches(s, st, st', doc, script, b)
  {
    var pieces := PiecesOf(s, script.extraction.pages);
    var base := if script.deletes then Forget(st.store, doc) else st.store;
    StoredNumbers(s, st, doc, script, b);
    forall k: nat | k in Numbers(st'.store, doc)
      ensures st'.store[ChunkId(doc, k)] == if k in Leftovers(st, doc, script) then st.store[ChunkId(doc, k)] else pieces[k].0
    {
      NumbersAreIds(st'.store, doc, k);
      NumbersAreIds(st.store, doc, k);
      InRange(base, doc, pieces, 0, Upto(|pieces|, b), ChunkId(doc, k));
    }
  }

  function BatchesAdded(script: Script, n: nat): nat {
    if !script.embeds || !script.connectsToAdd then 0 else Min(script.batchesTaken, BatchCount(n))
  }

  lemma StoredAfter(st: State, doc: string, pieces: seq<Piece>, script: Script)
    ensures StoreAndFinish(st, doc, pieces, script).store == AfterBatches(st.store, doc, pieces, BatchesAdded(script, |pieces|))
  {
    assert AfterBatches(st.store, doc, pieces, 0) == st.store;
  }

  ghost predicate AddedTo(s: Settings, st: State, st': State, doc: string, script: Script)
    requires script.extraction.Extracted?
  {
    var pieces := PiecesOf(s, script.extraction.pages);
    st'.store == AfterBatches(if script.deletes then Forget(st.store, doc) else st.store, doc, pieces,
                              BatchesAdded(script, |pieces|))
  }

  /** What a run does to the store, however it ends. */
  lemma StoreAfter(s: Settings, st: State, doc: string, script: Script)
    ensures var st' := Ingest(s, st, doc, script);
      st'.store == st.store || (script.extraction.Extracted? && AddedTo(s, st, st', doc, script))
  {
    if script.extraction.Extracted? {
      var row := st.row.(status := Processing, pageCount := |script.extraction.pages|);
      StoredAfter(State(row, if script.deletes then Forget(st.store, doc) else st.store), doc,
                  PiecesOf(s, script.extraction.pages), script);
    }
  }

  /** A run that ends in FAILED has left the store alone, or holds exactly the chunks of the leading batches that
      the store took before it failed, with their texts, beside what the deletion left behind. */
  lemma FailureLeavesWholeBatches(s: Settings, st: State, doc: string, script: Script)
    requires script.found && Ingest(s, st, doc, script).row.status == Failed
    ensures var st' := Ingest(s, st, doc, script);
      || st'.store == st.store
      || (script.extraction.Extracted? &&
          LeadingBatches(s, st, st', doc, script,
                         if script.embeds && script.connectsToAdd
                         then Min(script.batchesTaken, BatchCount(|PiecesOf(s, script.extraction.pages)|)) else 0))
  {
    var st' := Ingest(s, st, doc, script);
    StoreAfter(s, st, doc, script);
    if st'.store != st.store {
      BatchesLead(s, st, st', doc, script, BatchesAdded(script, |PiecesOf(s, script.extraction.pages)|));
    }
  }

  /** Whatever happens, the chunks of other documents stay as they are. */
  lemma OthersUntouched(s: Settings, st: State, doc: string, script: Script, id: ChunkId)
    requires id.document != doc
    ensures var st' := Ingest(s, st, doc, script);
      (id in st'.store <==> id in st.store) && (id in st.store ==> st'.store[id] == st.store[id])
  {
    if script.found && script.savesProcessing && script.extraction.Extracted? && script.savesPageCount && script.connectsToDelete {
      var pieces := PiecesOf(s, script.extraction.pages);
      var base := if script.deletes then Forget(st.store, doc) else st.store;
      var n := BatchCount(|pieces|);
      var b := Min(script.batchesTaken, n);
      NumbersAfterAdd(base, doc, pieces, Upto(|pieces|, b));
    }
  }

  // ----- the code -----

  ghost function Contents(chunks: seq<Chunk>): (ps: seq<Piece>)
    ensures |ps| == |chunks| && forall i | 0 <= i < |ps| :: ps[i] == (chunks[i].text, chunks[i].pageNumber)
  {
    seq(|chunks|, i requires 0 <= i < |chunks| => (chunks[i].text, chunks[i].pageNumber))
  }

  lemma SameBatch(chunks: seq<Chunk>, pieces: seq<Piece>, lo: nat, hi: nat, doc: string)
    requires lo <= hi <= |chunks| == |pieces| && forall i | 0 <= i < |chunks| :: chunks[i].text == pieces[i].0
    ensures (map k: nat | lo <= k < hi :: ChunkId(doc, k) := chunks[k].text) ==
            (map k: nat | lo <= k < hi :: ChunkId(doc, k) := pieces[k].0)
  {
  }

  class DocumentProcessor {
    var row: Row
    var store: Store

    ghost function Model(): State
      reads this
    {
      State(row, store)
    }

    constructor (row: Row, store: Store)
      ensures Model() == State(row, store)
    {
      this.row, this.store := row, store;
    }

    /** Adds the chunks in batches; the number stored so far is what is reported when all went well. */
    method StoreChunks(chunks: seq<Chunk>, doc: string, script: Script) returns (stored: nat, raised: bool)
      requires forall i | 0 <= i < |chunks| :: chunks[i].id == ChunkId(doc, i)
      modifies this`store
      ensures raised == (chunks != [] && (!script.embeds || !script.connectsToAdd
                                          || script.batchesTaken < BatchCount(|chunks|)))
      ensures !raised ==> stored == |chunks| && store == AfterBatches(old(store), doc, Contents(chunks), BatchCount(|chunks|))
      ensures raised ==> store == if script.embeds && script.connectsToAdd
                                  then AfterBatches(old(store), doc, Contents(chunks), script.batchesTaken) else old(store)
    {
      stored, raised := 0, false;
      if |chunks| == 0 {
        return;
      }
      if !script.embeds || !script.connectsToAdd {
        raised := true;
        return;
      }
      stored, raised := AddBatches(chunks, doc, script.batchesTaken);
    }

    method AddBatches(chunks: seq<Chunk>, doc: string, batchesTaken: nat) returns (stored: nat, raised: bool)
      requires forall i | 0 <= i < |chunks| :: chunks[i].id == ChunkId(doc, i)
      modifies this`store
      ensures raised == (batchesTaken < BatchCount(|chunks|))
      ensures !raised ==> stored == |chunks|
      ensures store == AfterBatches(old(store), doc, Contents(chunks), if raised then batchesTaken else BatchCount(|chunks|))
    {
      ghost var pieces := Contents(chunks);
      assert AfterBatches(store, doc, pieces, 0) == store;
      stored, raised := 0, false;
      var i, b: nat := 0, 0;
      while i < |chunks|
        invariant i == b * BATCH && b <= batchesTaken
        invariant i < |chunks| + BATCH && stored == Upto(|chunks|, b)
        invariant store == AfterBatches(old(store), doc, pieces, b)
      {
        if b == batchesTaken {
          CountingBatches(|chunks|, b);
          raised := true;
          return;
        }
        var added := AddBatch(chunks, b, doc, pieces, old(store));
        stored, i, b := stored + added, i + BATCH, b + 1;
      }
      CountingBatches(|chunks|, b);
    }

    method AddBatch(chunks: seq<Chunk>, b: nat, doc: string, ghost pieces: seq<Piece>, ghost start: Store) returns (added: nat)
      requires store == AfterBatches(start, doc, pieces, b)
      requires |chunks| == |pieces|
      requires forall i | 0 <= i < |chunks| :: chunks[i].id == ChunkId(doc, i) && chunks[i].text == pieces[i].0
      modifies this`store
      ensures added == Upto(|chunks|, b + 1) - Upto(|chunks|, b)
      ensures store == AfterBatches(start, doc, pieces, b + 1)
    {
      var lo, hi := Upto(|chunks|, b), Upto(|chunks|, b + 1);
      RangesJoin(start, doc, pieces, lo, hi);
      CollectionAdd(chunks, lo, hi, doc, pieces);
      added := hi - lo;
    }

    method CollectionAdd(chunks: seq<Chunk>, lo: nat, hi: nat, doc: string, ghost pieces: seq<Piece>)
      requires lo <= hi <= |chunks| == |pieces|
      requires forall i | 0 <= i < |chunks| :: chunks[i].id == ChunkId(doc, i) && chunks[i].text == pieces[i].0
      modifies this`store
      ensures store == AddRange(old(store), doc, pieces, lo, hi)
    {
      var batch := map k: nat | lo <= k < hi :: ChunkId(doc, k) := chunks[k].text;
      SameBatch(chunks, pieces, lo, hi, doc);
      store := batch + store;
    }

    method SyncProcess(doc: string, s: Settings, script: Script)
      modifies this
      ensures Model() == Ingest(s, old(Model()), doc, script)
    {
      if !script.found {
        return;
      }
      var raised := TryProcess(doc, s, script);
      if raised && script.savesFailed {
        row := row.(status := Failed, hasError := true);
      }
    }

    /** The body of the try statement; true when an exception leaves it. */
    method TryProcess(doc: string, s: Settings, script: Script) returns (raised: bool)
      requires script.found
      modifies this
      ensures Ingest(s, old(Model()), doc, script) == if raised then Fail(Model(), script) else Model()
    {
      if !script.savesProcessing {
        return true;
      }
      row := row.(status := Processing);
      if script.extraction.Unreadable? {
        return true;
      }
      var pages := script.extraction.pages;
      if Strip(JoinPages(pages)) == "" || !script.savesPageCount {
        return true;
      }
      row := row.(pageCount := |pages|);
      if !script.connectsToDelete {
        return true;
      }
      if script.deletes {
        store := Forget(store, doc);
      }
      var chunks := ChunkPages(pages, doc, s.size, s.overlap, s.size, s.overlap);
      assert Contents(chunks) == PiecesOf(s, pages);
      ChunksExactlyWhenNotBlank(pages, s.size, s.overlap);
      var stored, failed := StoreChunks(chunks, doc, script);
      if failed || !script.savesReady {
        return true;
      }
      row := row.(chunkCount := stored, status := Ready, hasError := false);
      return false;
    }
  }
}
