/** Dropping duplicate search results by the hashes of their URL and title.  The hash is any function
    on strings. */
module Dedup {

  datatype Item = Item(url: string, title: string)

  /** One item against the hashes seen so far: the hashes afterwards, and whether it is dropped.  An item
      whose URL is known leaves nothing behind, not even its title. */
  function Examine(h: string -> string, seen: set<string>, item: Item): (set<string>, bool) {
    if h(item.url) in seen then (seen, true)
    else
      var seen' := seen + {h(item.url)};
      if h(item.title) in seen' then (seen', true) else (seen' + {h(item.title)}, false)
  }

  function Seen(h: string -> string, items: seq<Item>): set<string> {
    if items == [] then {} else Examine(h, Seen(h, items[..|items| - 1]), items[|items| - 1]).0
  }

  /** Item i survives. */
  predicate Kept(h: string -> string, items: seq<Item>, i: nat)
    requires i < |items|
  {
    !Examine(h, Seen(h, items[..i]), items[i]).1
  }

  /** Positions of the surviving items. */
  function KeptIndices(h: string -> string, items: seq<Item>): seq<nat> {
    if items == [] then []
    else
      var n := |items| - 1;
      KeptIndices(h, items[..n]) + if Kept(h, items, n) then [n] else []
  }

  lemma KeptIndicesStep(h: string -> string, items: seq<Item>, i: nat)
    requires i < |items|
    ensures KeptIndices(h, items[..i + 1]) == KeptIndices(h, items[..i]) + if Kept(h, items, i) then [i] else []
  {
    var upto := items[..i + 1];
    assert upto[..i] == items[..i] && |upto| == i + 1;
    assert Kept(h, upto, i) == Kept(h, items, i);
  }

  function Select(items: seq<Item>, at: seq<nat>): (r: seq<Item>)
    requires forall k | 0 <= k < |at| :: at[k] < |items|
    ensures |r| == |at| && forall k | 0 <= k < |r| :: r[k] == items[at[k]]
  {
    seq(|at|, k requires 0 <= k < |at| => items[at[k]])
  }

  predicate Shares(h: string -> string, a: string, item: Item) {
    h(a) == h(item.url) || h(a) == h(item.title)
  }

  lemma PrefixKept(h: string -> string, items: seq<Item>, n: nat, i: nat)
    requires i < n <= |items|
    ensures Kept(h, items[..n], i) == Kept(h, items, i)
  {
    assert items[..n][..i] == items[..i];
  }

  /** Item i left hash x behind. */
  predicate Leaves(h: string -> string, items: seq<Item>, i: nat, x: string)
    requires i < |items|
  {
    x == h(items[i].url) || (Kept(h, items, i) && x == h(items[i].title))
  }

  lemma PrefixLeaves(h: string -> string, items: seq<Item>, n: nat, i: nat, x: string)
    requires i < n <= |items|
    ensures Leaves(h, items[..n], i, x) == Leaves(h, items, i, x)
  {
    PrefixKept(h, items, n, i);
  }

  lemma {:induction false} SeenWasLeft(h: string -> string, items: seq<Item>, x: string) returns (i: nat)
    requires x in Seen(h, items)
    ensures i < |items| && Leaves(h, items, i, x)
  {
    var n := |items| - 1;
    if x in Seen(h, items[..n]) {
      i := SeenWasLeft(h, items[..n], x);
      PrefixLeaves(h, items, n, i, x);
    } else {
      i := n;
    }
  }

  lemma {:induction false} LeftIsSeen(h: string -> string, items: seq<Item>, i: nat, x: string)
    requires i < |items| && Leaves(h, items, i, x)
    ensures x in Seen(h, items)
  {
    var n := |items| - 1;
    if i < n {
      PrefixLeaves(h, items, n, i, x);
      LeftIsSeen(h, items[..n], i, x);
    }
  }

  /** The hashes seen are those of every URL so far and of the titles of the items kept so far. */
  lemma {:induction false} SeenExactly(h: string -> string, items: seq<Item>, x: string)
    ensures x in Seen(h, items) <==> exists i :: 0 <= i < |items| && Leaves(h, items, i, x)
  {
    if x in Seen(h, items) {
      var i := SeenWasLeft(h, items, x);
    }
    if i: nat :| i < |items| && Leaves(h, items, i, x) {
      LeftIsSeen(h, items, i, x);
    }
  }

  predicate Clashes(h: string -> string, items: seq<Item>, i: nat, j: nat)
    requires i < |items| && j < |items|
  {
    Leaves(h, items, i, h(items[j].url)) || Leaves(h, items, i, h(items[j].title))
  }

  /** An item is dropped exactly when its own URL and title collide, or its URL or title hash is that of
      an earlier item's URL, or of the title of an earlier item that was kept. */
  lemma DroppedExactly(h: string -> string, items: seq<Item>, j: nat)
    requires j < |items|
    ensures !Kept(h, items, j) <==>
            (h(items[j].url) == h(items[j].title) || exists i :: 0 <= i < j && Clashes(h, items, i, j))
  {
    var before := items[..j];
    if h(items[j].url) in Seen(h, before) {
      var i := SeenWasLeft(h, before, h(items[j].url));
      PrefixLeaves(h, items, j, i, h(items[j].url));
      assert Clashes(h, items, i, j);
    } else if h(items[j].title) in Seen(h, before) {
      var i := SeenWasLeft(h, before, h(items[j].title));
      PrefixLeaves(h, items, j, i, h(items[j].title));
      assert Clashes(h, items, i, j);
    }
    if i: nat :| i < j && Clashes(h, items, i, j) {
      var x := if Leaves(h, items, i, h(items[j].url)) then h(items[j].url) else h(items[j].title);
      PrefixLeaves(h, items, j, i, x);
      LeftIsSeen(h, before, i, x);
    }
  }

  /** No two kept items share a hash, not even one's URL and the other's title. */
  lemma KeptAreDisjoint(h: string -> string, items: seq<Item>, i: nat, j: nat)
    requires i < j < |items| && Kept(h, items, i) && Kept(h, items, j)
    ensures !Shares(h, items[i].url, items[j]) && !Shares(h, items[i].title, items[j])
    ensures h(items[j].url) != h(items[j].title)
  {
    DroppedExactly(h, items, j);
    assert !Clashes(h, items, i, j);
  }

  /** The survivors are the kept items, each once, in the original order. */
  lemma {:induction false} KeptInOrder(h: string -> string, items: seq<Item>)
    ensures var at := KeptIndices(h, items);
      && (forall k | 0 <= k < |at| :: at[k] < |items| && Kept(h, items, at[k]))
      && (forall k, m | 0 <= k < m < |at| :: at[k] < at[m])
      && (forall i | 0 <= i < |items| && Kept(h, items, i) :: i in at)
  {
    if items != [] {
      var n := |items| - 1;
      var before := items[..n];
      KeptInOrder(h, before);
      forall i | 0 <= i < n ensures Kept(h, before, i) == Kept(h, items, i) {
        PrefixKept(h, items, n, i);
      }
      var at := KeptIndices(h, items);
      forall k | 0 <= k < |at| ensures at[k] < |items| && Kept(h, items, at[k]) {
        if k < |KeptIndices(h, before)| {
          assert at[k] == KeptIndices(h, before)[k];
          assert Kept(h, before, at[k]);
        }
      }
    }
  }

  class SemanticDeduplicator {
    const hash: string -> string
    var seenHashes: set<string>
    var duplicateCount: nat

    constructor (hash: string -> string)
      ensures this.hash == hash && seenHashes == {} && duplicateCount == 0
    {
      this.hash := hash;
      seenHashes, duplicateCount := {}, 0;
    }

    method IsDuplicate(item: Item) returns (duplicate: bool)
      modifies this
      ensures (seenHashes, duplicate) == Examine(hash, old(seenHashes), item)
      ensures duplicateCount == old(duplicateCount) + if duplicate then 1 else 0
    {
      var urlHash := hash(item.url);
      if urlHash in seenHashes {
        duplicateCount := duplicateCount + 1;
        return true;
      }
      seenHashes := seenHashes + {urlHash};
      var titleHash := hash(item.title);
      if titleHash in seenHashes {
        duplicateCount := duplicateCount + 1;
        return true;
      }
      seenHashes := seenHashes + {titleHash};
      return false;
    }

    method Reset()
      modifies this
      ensures seenHashes == {} && duplicateCount == 0
    {
      seenHashes, duplicateCount := {}, 0;
    }

    /** The pipeline's deduplication stage: the survivors are those of the whole list whatever the object
        had seen before, and before = after + duplicates filtered. */
    method Deduplicate(items: seq<Item>) returns (deduped: seq<Item>)
      modifies this
      ensures forall k | 0 <= k < |KeptIndices(hash, items)| :: KeptIndices(hash, items)[k] < |items|
      ensures deduped == Select(items, KeptIndices(hash, items))
      ensures |items| == |deduped| + duplicateCount
    {
      Reset();
      deduped := [];
      for i := 0 to |items|
        invariant seenHashes == Seen(hash, items[..i])
        invariant |deduped| == |KeptIndices(hash, items[..i])| && i == |deduped| + duplicateCount
        invariant forall k | 0 <= k < |deduped| ::
          KeptIndices(hash, items[..i])[k] < i && deduped[k] == items[KeptIndices(hash, items[..i])[k]]
      {
        assert items[..i + 1][..i] == items[..i];
        KeptIndicesStep(hash, items, i);
        var duplicate := IsDuplicate(items[i]);
        if !duplicate {
          deduped := deduped + [items[i]];
        }
      }
      assert items[..|items|] == items;
    }
  }
}
