/** External merge sort (toolkit/io/sort_file.py). */
module SortFile {
  import opened StableSort
  import opened Strings
  import opened CodecLines

  type Order = (Line, Line) -> bool   // key(a) <= key(b)

  // ---------------------------------------------------------------------
  // The k-way merge
  // ---------------------------------------------------------------------

  /** A heap entry: key(value) and index decide, the iterator is what the chunk has left. */
  datatype Item = Item(index: nat, value: Line, rest: seq<Line>)

  /** Tuple comparison; two entries never have the same index. */
  predicate Before(le: Order, a: Item, b: Item) {
    le(a.value, b.value) && (le(b.value, a.value) ==> a.index < b.index)
  }

  /** `heappop`: the least entry, and the others. */
  method HeapPop(le: Order, heap: seq<Item>) returns (k: nat)
    requires TotalPreorder(le) && heap != []
    requires forall i, j :: 0 <= i < j < |heap| ==> heap[i].index != heap[j].index
    ensures k < |heap|
    ensures forall j :: 0 <= j < |heap| && j != k ==> Before(le, heap[k], heap[j])
  {
    k := 0;
    for i := 1 to |heap|
      invariant k < i
      invariant forall j :: 0 <= j < i && j != k ==> Before(le, heap[k], heap[j])
    {
      if Before(le, heap[i], heap[k]) {
        k := i;
      }
    }
  }

  /** What is left of each chunk. */
  type Rests = seq<seq<Line>>

  /** `i` is the first chunk among those whose next line has the least key. */
  ghost predicate IsNext(le: Order, rests: Rests, i: nat) {
    && i < |rests| && rests[i] != []
    && (forall j :: 0 <= j < |rests| && rests[j] != [] ==> le(rests[i][0], rests[j][0]))
    && (forall j :: 0 <= j < i && rests[j] != [] ==> !le(rests[j][0], rests[i][0]))
  }

  ghost predicate HasEntry(heap: seq<Item>, i: nat) {
    exists k :: 0 <= k < |heap| && heap[k].index == i
  }

  /** The heap holds one entry for each chunk that is not exhausted, and no other. */
  ghost predicate HeapOk(heap: seq<Item>, rests: Rests) {
    && (forall k :: 0 <= k < |heap| ==>
          heap[k].index < |rests| && rests[heap[k].index] == [heap[k].value] + heap[k].rest)
    && (forall i, j :: 0 <= i < j < |heap| ==> heap[i].index != heap[j].index)
    && (forall i :: 0 <= i < |rests| && rests[i] != [] ==> HasEntry(heap, i))
  }

  ghost predicate AllSorted(le: Order, rests: Rests) {
    forall i :: 0 <= i < |rests| ==> Sorted(le, rests[i])
  }

  /** Element `j` of the concatenation, found in its chunk. */
  lemma {:induction false} Locate(rests: Rests, j: nat, i: nat) returns (c: nat, p: nat)
    requires j < |Concat(rests)| && i <= |rests|
    ensures c < |rests| && p < |rests[c]| && Concat(rests)[j] == rests[c][p]
    ensures j < |Concat(rests[..i])| ==> c < i
  {
    var n := |rests[0]|;
    if j < n {
      c, p := 0, j;
      if i == 0 {
        assert rests[..0] == [];
      }
    } else {
      var tail := rests[1..];
      if i == 0 {
        c, p := Locate(tail, j - n, 0);
        assert rests[..0] == [];
      } else {
        c, p := Locate(tail, j - n, i - 1);
        assert rests[..i][1..] == tail[..i - 1];
      }
      c := c + 1;
    }
  }

  lemma {:induction false} ConcatSplit(rests: Rests, i: nat)
    requires i < |rests|
    ensures Concat(rests) == Concat(rests[..i]) + rests[i] + Concat(rests[i + 1..])
  {
    if i == 0 {
      assert rests[..0] == [];
    } else {
      ConcatSplit(rests[1..], i - 1);
      assert rests[..i][1..] == rests[1..][..i - 1];
      assert rests[1..][i..] == rests[i + 1..];
    }
  }

  lemma TakeNext(rests: Rests, i: nat)
    requires i < |rests| && rests[i] != []
    ensures
      var all, m := Concat(rests), |Concat(rests[..i])|;
      m < |all| && all[m] == rests[i][0] && Concat(rests[i := rests[i][1..]]) == Without(all, m)
  {
    ConcatSplit(rests, i);
    var after := rests[i := rests[i][1..]];
    ConcatSplit(after, i);
    assert after[..i] == rests[..i] && after[i + 1..] == rests[i + 1..];
  }

  /** The next line of a merge of sorted chunks is the first least line of what is left. */
  lemma NextIsFirstMin(le: Order, rests: Rests, i: nat)
    requires TotalPreorder(le) && AllSorted(le, rests) && IsNext(le, rests, i)
    ensures IsFirstMin(le, Concat(rests), |Concat(rests[..i])|)
  {
    var all, m, v := Concat(rests), |Concat(rests[..i])|, rests[i][0];
    TakeNext(rests, i);
    forall j | 0 <= j < |all|
      ensures le(v, all[j])
      ensures j < m ==> !le(all[j], v)
    {
      var c, p := Locate(rests, j, i);
      var h := rests[c][0];
      assert le(h, h);
      assert Sorted(le, rests[c]);
      assert le(h, rests[c][p]);
      assert le(v, h);
    }
  }

  lemma SortNext(le: Order, rests: Rests, i: nat)
    requires TotalPreorder(le) && AllSorted(le, rests) && IsNext(le, rests, i)
    ensures Sort(le, Concat(rests)) == [rests[i][0]] + Sort(le, Concat(rests[i := rests[i][1..]]))
    ensures AllSorted(le, rests[i := rests[i][1..]])
  {
    NextIsFirstMin(le, rests, i);
    TakeNext(rests, i);
    FirstMinUnique(le, Concat(rests), |Concat(rests[..i])|);
  }

  lemma LeastIsNext(le: Order, heap: seq<Item>, rests: Rests, k: nat)
    requires TotalPreorder(le) && HeapOk(heap, rests) && k < |heap|
    requires forall j :: 0 <= j < |heap| && j != k ==> Before(le, heap[k], heap[j])
    ensures IsNext(le, rests, heap[k].index) && rests[heap[k].index][0] == heap[k].value
  {
    var i, v := heap[k].index, heap[k].value;
    assert le(v, v);
    forall j | 0 <= j < |rests| && rests[j] != []
      ensures le(v, rests[j][0])
      ensures j < i ==> !le(rests[j][0], v)
    {
      var q :| 0 <= q < |heap| && heap[q].index == j;
      assert rests[j][0] == heap[q].value;
    }
  }

  lemma {:induction false} ConcatEmpty(rests: Rests)
    requires forall i :: 0 <= i < |rests| ==> rests[i] == []
    ensures Concat(rests) == []
  {
    if rests != [] {
      ConcatEmpty(rests[1..]);
    }
  }

  /** Popping entry `k` and pushing the chunk's next line, if it has one. */
  function Advance(heap: seq<Item>, k: nat): seq<Item>
    requires k < |heap|
  {
    var it := heap[k];
    Without(heap, k) + if it.rest == [] then [] else [Item(it.index, it.rest[0], it.rest[1..])]
  }

  /** The entries after a pop: the others, shifted, and then the one pushed. */
  lemma AdvanceAt(heap: seq<Item>, k: nat)
    requires k < |heap|
    ensures
      var it, heap' := heap[k], Advance(heap, k);
      && |heap'| == |heap| - (if it.rest == [] then 1 else 0)
      && (forall q :: 0 <= q < |heap| - 1 ==> heap'[q] == heap[if q < k then q else q + 1])
      && (it.rest != [] ==> heap'[|heap| - 1] == Item(it.index, it.rest[0], it.rest[1..]))
  {
  }

  lemma AdvanceEntry(heap: seq<Item>, k: nat, i: nat)
    requires k < |heap| && HasEntry(heap, i) && (i == heap[k].index ==> heap[k].rest != [])
    ensures HasEntry(Advance(heap, k), i)
  {
    var heap' := Advance(heap, k);
    AdvanceAt(heap, k);
    if i == heap[k].index {
      assert heap'[|heap'| - 1].index == i;
    } else {
      var q :| 0 <= q < |heap| && heap[q].index == i;
      assert heap'[if q < k then q else q - 1].index == i;
    }
  }

  lemma AdvanceOk(heap: seq<Item>, rests: Rests, k: nat)
    requires HeapOk(heap, rests) && k < |heap|
    ensures HeapOk(Advance(heap, k), rests[heap[k].index := heap[k].rest])
  {
    var it := heap[k];
    var heap', rests' := Advance(heap, k), rests[it.index := it.rest];
    AdvanceAt(heap, k);
    forall i | 0 <= i < |rests'| && rests'[i] != []
      ensures HasEntry(heap', i)
    {
      AdvanceEntry(heap, k, i);
    }
  }

  lemma HeapStep(le: Order, heap: seq<Item>, rests: Rests, k: nat) returns (rests': Rests)
    requires TotalPreorder(le) && HeapOk(heap, rests) && k < |heap|
    requires forall j :: 0 <= j < |heap| && j != k ==> Before(le, heap[k], heap[j])
    ensures HeapOk(Advance(heap, k), rests')
    ensures |Advance(heap, k)| <= |heap|
    ensures |Concat(rests')| < |Concat(rests)|
    ensures multiset(Concat(rests)) == multiset{heap[k].value} + multiset(Concat(rests'))
    ensures AllSorted(le, rests) ==>
      AllSorted(le, rests') && Sort(le, Concat(rests)) == [heap[k].value] + Sort(le, Concat(rests'))
  {
    var it := heap[k];
    LeastIsNext(le, heap, rests, k);
    TakeNext(rests, it.index);
    if AllSorted(le, rests) {
      SortNext(le, rests, it.index);
    }
    AdvanceOk(heap, rests, k);
    assert rests[it.index][1..] == it.rest;
    rests' := rests[it.index := it.rest];
    WithoutMultiset(Concat(rests), |Concat(rests[..it.index])|);
  }

  lemma WithoutMultiset(xs: seq<Line>, m: nat)
    requires m < |xs|
    ensures multiset(xs) == multiset{xs[m]} + multiset(Without(xs, m))
  {
    assert xs == xs[..m] + [xs[m]] + xs[m + 1..];
  }

  // Chunks that are empty

  /** The chunks that `merge` looks at: removing an empty one from the list it iterates over skips the next. */
  function Visited(chunks: Rests): Rests
    decreases |chunks|
  {
    if chunks == [] then []
    else if chunks[0] != [] then [chunks[0]] + Visited(chunks[1..])
    else if |chunks| == 1 then []
    else [[]] + Visited(chunks[2..])
  }

  /** The lines of the chunks that are skipped. */
  function Skipped(chunks: Rests): Rests
    decreases |chunks|
  {
    if chunks == [] then []
    else if chunks[0] != [] then Skipped(chunks[1..])
    else if |chunks| == 1 then []
    else [chunks[1]] + Skipped(chunks[2..])
  }

  lemma {:induction false} VisitedAll(chunks: Rests)
    requires forall i :: 0 <= i < |chunks| ==> chunks[i] != []
    ensures Visited(chunks) == chunks
    decreases |chunks|
  {
    if chunks != [] {
      VisitedAll(chunks[1..]);
      assert chunks == [chunks[0]] + chunks[1..];
    }
  }

  lemma VisitsAll(chunks: Rests)
    ensures (forall i :: 0 <= i < |chunks| ==> chunks[i] != []) ==> Visited(chunks) == chunks
  {
    if forall i :: 0 <= i < |chunks| ==> chunks[i] != [] {
      VisitedAll(chunks);
    }
  }

  lemma {:induction false} VisitedOrSkipped(chunks: Rests)
    ensures multiset(Concat(chunks)) == multiset(Concat(Visited(chunks))) + multiset(Concat(Skipped(chunks)))
    decreases |chunks|
  {
    if chunks != [] {
      assert chunks == [chunks[0]] + chunks[1..];
      if chunks[0] != [] {
        VisitedOrSkipped(chunks[1..]);
        assert ([chunks[0]] + Visited(chunks[1..]))[1..] == Visited(chunks[1..]);
      } else if |chunks| > 1 {
        VisitedOrSkipped(chunks[2..]);
        assert chunks[1..][1..] == chunks[2..];
        assert ([chunks[1]] + Skipped(chunks[2..]))[1..] == Skipped(chunks[2..]);
        assert ([[]] + Visited(chunks[2..]))[1..] == Visited(chunks[2..]);
      }
    }
  }

  /** All lines of the chunks come out of `merge` exactly if every chunk behind a removed one is empty itself. */
  lemma NothingSkippedIff(chunks: Rests)
    ensures multiset(Concat(Visited(chunks))) == multiset(Concat(chunks)) <==> Concat(Skipped(chunks)) == []
  {
    VisitedOrSkipped(chunks);
    var lost := Concat(Skipped(chunks));
    if lost != [] {
      assert lost[0] in multiset(lost);
    }
  }

  lemma FillNext(heap: seq<Item>, rests: Rests, chunk: seq<Line>)
    requires HeapOk(heap, rests) && chunk != []
    ensures HeapOk(heap + [Item(|rests|, chunk[0], chunk[1..])], rests + [chunk])
  {
    var heap', rests' := heap + [Item(|rests|, chunk[0], chunk[1..])], rests + [chunk];
    assert heap'[|heap|].index == |rests|;
    forall i | 0 <= i < |rests'| && rests'[i] != [] ensures HasEntry(heap', i) {
      if i < |rests| {
        var k :| 0 <= k < |heap| && heap[k].index == i;
        assert heap'[k].index == i;
      }
    }
  }

  lemma FillSkips(heap: seq<Item>, rests: Rests)
    requires HeapOk(heap, rests)
    ensures HeapOk(heap, rests + [[]])
  {
    forall i | 0 <= i < |rests + [[]]| && (rests + [[]])[i] != [] ensures HasEntry(heap, i) {
      assert rests[i] != [];
    }
  }

  lemma VisitedNext(chunks: Rests, i: nat, rests: Rests)
    requires i < |chunks|
    ensures chunks[i] != [] ==>
      rests + Visited(chunks[i..]) == rests + [chunks[i]] + Visited(chunks[i + 1..])
    ensures chunks[i] == [] && i + 1 < |chunks| ==>
      rests + Visited(chunks[i..]) == rests + [[]] + Visited(chunks[i + 2..])
    ensures chunks[i] == [] && i + 1 == |chunks| ==> rests + Visited(chunks[i..]) == rests
  {
    var tail := chunks[i..];
    assert tail[0] == chunks[i] && tail[1..] == chunks[i + 1..];
    if i + 1 < |chunks| {
      assert tail[2..] == chunks[i + 2..];
    }
  }

  /** `index` chunks have been looked at, or skipped; `rests` are their lines, with none for the skipped ones. */
  ghost predicate Filling(chunks: Rests, L: Rests, index: nat, heap: seq<Item>, rests: Rests) {
    && index == |rests| <= |L| <= |chunks|
    && HeapOk(heap, rests) && |heap| <= index
    && rests + Visited(L[index..]) == Visited(chunks)
  }

  lemma TakeChunk(chunks: Rests, L: Rests, index: nat, heap: seq<Item>, rests: Rests)
    requires Filling(chunks, L, index, heap, rests) && index < |L| && L[index] != []
    ensures Filling(chunks, L, index + 1, heap + [Item(index, L[index][0], L[index][1..])], rests + [L[index]])
  {
    VisitedNext(L, index, rests);
    FillNext(heap, rests, L[index]);
  }

  lemma SkipChunk(chunks: Rests, L: Rests, index: nat, heap: seq<Item>, rests: Rests)
    requires Filling(chunks, L, index, heap, rests) && index + 1 < |L| && L[index] == []
    ensures Filling(chunks, L[..index] + L[index + 1..], index + 1, heap, rests + [[]])
  {
    VisitedNext(L, index, rests);
    FillSkips(heap, rests);
    assert (L[..index] + L[index + 1..])[index + 1..] == L[index + 2..];
  }

  lemma NoMoreChunks(chunks: Rests, L: Rests, index: nat, heap: seq<Item>, rests: Rests)
    requires Filling(chunks, L, index, heap, rests) && |L| <= index + 1 && (index < |L| ==> L[index] == [])
    ensures rests == Visited(chunks)
  {
    if index < |L| {
      VisitedNext(L, index, rests);
    } else {
      assert L[index..] == [];
      assert rests + [] == rests;
    }
  }

  /** The first loop of `merge`: `index` counts the turns, while the list shrinks under it. */
  method FillHeap(chunks: Rests) returns (heap: seq<Item>)
    ensures HeapOk(heap, Visited(chunks))
  {
    var L := chunks;
    heap := [];
    ghost var rests: Rests := [];
    var index := 0;
    assert [] + Visited(L) == Visited(chunks) && L[0..] == L;
    while index < |L|
      invariant index <= |L| || |L| + 1 == index
      invariant index <= |L| ==> Filling(chunks, L, index, heap, rests)
      invariant index > |L| ==> HeapOk(heap, Visited(chunks))
      decreases |L| - index
    {
      if L[index] != [] {
        TakeChunk(chunks, L, index, heap, rests);
        rests := rests + [L[index]];
        heap := heap + [Item(index, L[index][0], L[index][1..])];
      } else {
        if index + 1 < |L| {
          SkipChunk(chunks, L, index, heap, rests);
          rests := rests + [[]];
        } else {
          NoMoreChunks(chunks, L, index, heap, rests);
        }
        L := L[..index] + L[index + 1..];
      }
      index := index + 1;
    }
    if index == |L| {
      NoMoreChunks(chunks, L, index, heap, rests);
    }
  }

  lemma Exhausted(heap: seq<Item>, rests: Rests)
    requires HeapOk(heap, rests) && heap == []
    ensures Concat(rests) == []
  {
    ConcatEmpty(rests);
  }

  /** `out` has been yielded and `rests` are left. */
  ghost predicate Merged(le: Order, chunks: Rests, out: seq<Line>, rests: Rests) {
    && multiset(out) + multiset(Concat(rests)) == multiset(Concat(chunks))
    && (AllSorted(le, chunks) ==>
          AllSorted(le, rests) && out + Sort(le, Concat(rests)) == Sort(le, Concat(chunks)))
  }

  lemma MergedStep(le: Order, chunks: Rests, out: seq<Line>, rests: Rests, v: Line, rests': Rests)
    requires Merged(le, chunks, out, rests)
    requires multiset(Concat(rests)) == multiset{v} + multiset(Concat(rests'))
    requires AllSorted(le, rests) ==>
      AllSorted(le, rests') && Sort(le, Concat(rests)) == [v] + Sort(le, Concat(rests'))
    ensures Merged(le, chunks, out + [v], rests')
  {
    assert multiset(out + [v]) == multiset(out) + multiset{v};
    if AllSorted(le, chunks) {
      Shift(out, v, Sort(le, Concat(rests')));
    }
  }

  lemma Shift<T>(out: seq<T>, v: T, rest: seq<T>)
    ensures out + ([v] + rest) == out + [v] + rest
  {
  }

  /**
   * `merge`: all lines of the chunks it visits, and if these are sorted the
   * stable sort of their concatenation. Without empty chunks it visits all.
   */
  method Merge(le: Order, chunks: Rests) returns (out: seq<Line>)
    requires TotalPreorder(le)
    ensures multiset(out) == multiset(Concat(Visited(chunks)))
    ensures AllSorted(le, Visited(chunks)) ==> out == Sort(le, Concat(Visited(chunks)))
    ensures multiset(out) == multiset(Concat(chunks)) <==> Concat(Skipped(chunks)) == []
    ensures (forall i :: 0 <= i < |chunks| ==> chunks[i] != []) ==> Visited(chunks) == chunks
  {
    NothingSkippedIff(chunks);
    VisitsAll(chunks);
    var heap := FillHeap(chunks);
    out := MergeHeap(le, Visited(chunks), heap);
  }

  /** The second loop of `merge`. */
  method MergeHeap(le: Order, chunks: Rests, start: seq<Item>) returns (out: seq<Line>)
    requires TotalPreorder(le) && HeapOk(start, chunks)
    ensures multiset(out) == multiset(Concat(chunks))
    ensures AllSorted(le, chunks) ==> out == Sort(le, Concat(chunks))
  {
    var heap := start;
    out := [];
    ghost var rests := chunks;
    while heap != []
      invariant HeapOk(heap, rests)
      invariant |heap| <= |start|
      invariant Merged(le, chunks, out, rests)
      decreases |Concat(rests)|
    {
      var k := HeapPop(le, heap);
      ghost var rests' := HeapStep(le, heap, rests, k);
      MergedStep(le, chunks, out, rests, heap[k].value, rests');
      out := out + [heap[k].value];
      heap := Advance(heap, k);
      rests := rests';
    }
    Exhausted(heap, rests);
  }

  // ---------------------------------------------------------------------
  // Sorting in batches
  // ---------------------------------------------------------------------

  /** Nothing sorts behind the last line. */
  ghost predicate LastIsGreatest(le: Order, lines: seq<Line>) {
    lines != [] && forall i :: 0 <= i < |lines| ==> le(lines[i], lines[|lines| - 1])
  }

  lemma MinBeforeLast(le: Order, xs: seq<Line>)
    requires TotalPreorder(le) && LastIsGreatest(le, xs) && |xs| > 1
    ensures FirstMin(le, xs) < |xs| - 1
    ensures FirstMin(le, xs[..|xs| - 1]) == FirstMin(le, xs)
  {
    var n, m := |xs| - 1, FirstMin(le, xs);
    FirstMinIs(le, xs);
    assert le(xs[0], xs[n]);
    assert IsFirstMin(le, xs[..n], m);
    FirstMinUnique(le, xs[..n], m);
  }

  lemma {:induction false} SortKeepsLast(le: Order, xs: seq<Line>)
    requires TotalPreorder(le) && LastIsGreatest(le, xs)
    ensures Sort(le, xs) == Sort(le, xs[..|xs| - 1]) + [xs[|xs| - 1]]
    decreases |xs|
  {
    var n := |xs| - 1;
    var init, last := xs[..n], xs[n];
    if n == 0 {
      assert Without(xs, FirstMin(le, xs)) == [];
    } else {
      MinBeforeLast(le, xs);
      var m := FirstMin(le, xs);
      var rest := Without(xs, m);
      assert rest == Without(init, m) + [last];
      LastStays(le, xs, m);
      SortKeepsLast(le, rest);
      assert rest[..n - 1] == Without(init, m);
    }
  }

  lemma LastStays(le: Order, xs: seq<Line>, m: nat)
    requires LastIsGreatest(le, xs) && m < |xs| - 1
    ensures LastIsGreatest(le, Without(xs, m))
  {
    var rest := Without(xs, m);
    assert forall i :: 0 <= i < |rest| ==> rest[i] == xs[if i < m then i else i + 1];
  }

  /**
   * When the lines of a file, sorted, are the lines of a file: no other comes
   * behind a last line that is not terminated, and no carriage return comes
   * before a bare newline.
   */
  ghost predicate Sortable(le: Order, lines: seq<Line>) {
    && (AllTerminated(lines) || LastIsGreatest(le, lines))
    && NoneFuse(Sort(le, lines))
  }

  lemma {:induction false} SortIsFileIff(le: Order, xs: seq<Line>)
    requires TotalPreorder(le) && IsFile(xs)
    ensures AllLines(Sort(le, xs))
    ensures IsFile(Sort(le, xs)) <==> Sortable(le, xs)
  {
    SortIsLines(le, xs);
    if AllTerminated(xs) {
      SortTerminated(le, xs);
    } else if LastIsGreatest(le, xs) {
      var init := xs[..|xs| - 1];
      SortKeepsLast(le, xs);
      SortTerminated(le, init);
    } else {
      SortIsNoFile(le, xs);
    }
  }

  lemma SortIsLines(le: Order, xs: seq<Line>)
    requires AllLines(xs)
    ensures AllLines(Sort(le, xs))
  {
    SortIsPermutation(le, xs);
    var r := Sort(le, xs);
    forall i | 0 <= i < |r| ensures IsLine(r[i]) {
      assert r[i] in multiset(r);
      assert r[i] in xs;
    }
  }

  lemma SortTerminated(le: Order, xs: seq<Line>)
    requires AllTerminated(xs)
    ensures AllTerminated(Sort(le, xs))
  {
    SortIsPermutation(le, xs);
    var r := Sort(le, xs);
    forall i | 0 <= i < |r| ensures Terminated(r[i]) {
      assert r[i] in multiset(r);
      assert r[i] in xs;
    }
  }

  /** A line that is not terminated cannot have another behind it. */
  lemma SortIsNoFile(le: Order, xs: seq<Line>)
    requires TotalPreorder(le) && IsFile(xs) && !AllTerminated(xs) && !LastIsGreatest(le, xs)
    ensures !IsFile(Sort(le, xs))
  {
    var r, last := Sort(le, xs), xs[|xs| - 1];
    SortIsPermutation(le, xs);
    SortIsSorted(le, xs);
    assert last in multiset(xs) && last in r;
    var k :| 0 <= k < |r| && r[k] == last;
    var i :| 0 <= i < |xs| && !le(xs[i], last);
    assert xs[i] in multiset(r);
    var j :| 0 <= j < |r| && r[j] == xs[i];
    assert le(last, last);
    assert j > k;
    assert !Terminated(r[k]);
  }

  // Sorted pieces

  function SortAll(le: Order, pieces: Rests): Rests {
    if pieces == [] then [] else [Sort(le, pieces[0])] + SortAll(le, pieces[1..])
  }

  lemma {:induction false} SortAllAt(le: Order, pieces: Rests)
    ensures |SortAll(le, pieces)| == |pieces|
    ensures forall i :: 0 <= i < |pieces| ==> SortAll(le, pieces)[i] == Sort(le, pieces[i])
  {
    if pieces != [] {
      SortAllAt(le, pieces[1..]);
    }
  }

  lemma {:induction false} SortAllClasses(le: Order, v: Line, pieces: Rests)
    requires TotalPreorder(le)
    ensures Class(le, v, Concat(SortAll(le, pieces))) == Class(le, v, Concat(pieces))
  {
    if pieces != [] {
      var a, rest := pieces[0], pieces[1..];
      SortAllClasses(le, v, rest);
      SortIsStable(le, v, a);
      ClassAppend(le, v, a, Concat(rest));
      ClassAppend(le, v, Sort(le, a), Concat(SortAll(le, rest)));
      assert SortAll(le, pieces)[1..] == SortAll(le, rest);
    }
  }

  /** Sorting the pieces first does not change the sort of the whole. */
  lemma SortPiecesFirst(le: Order, pieces: Rests)
    requires TotalPreorder(le)
    ensures Sort(le, Concat(SortAll(le, pieces))) == Sort(le, Concat(pieces))
    ensures AllSorted(le, SortAll(le, pieces))
  {
    forall v ensures Class(le, v, Concat(SortAll(le, pieces))) == Class(le, v, Concat(pieces)) {
      SortAllClasses(le, v, pieces);
    }
    SortByClasses(le, Concat(SortAll(le, pieces)), Concat(pieces));
    SortAllAt(le, pieces);
    forall i | 0 <= i < |pieces| ensures Sorted(le, SortAll(le, pieces)[i]) {
      SortIsSorted(le, pieces[i]);
    }
  }

  // Batches

  /** `islice` again and again, until nothing is left. */
  function Batches(lines: seq<Line>, n: nat): Rests
    requires n > 0
  {
    if lines == [] then []
    else if |lines| <= n then [lines]
    else [lines[..n]] + Batches(lines[n..], n)
  }

  lemma {:induction false} BatchesJoin(lines: seq<Line>, n: nat)
    requires n > 0
    ensures Concat(Batches(lines, n)) == lines
  {
    if lines != [] {
      if |lines| <= n {
        assert Concat([lines]) == lines + Concat([]);
      } else {
        BatchesJoin(lines[n..], n);
        assert lines == lines[..n] + lines[n..];
      }
    }
  }

  lemma FilePart(lines: seq<Line>, from: nat, to: nat)
    requires IsFile(lines) && from <= to <= |lines|
    ensures IsFile(lines[from..to])
  {
    var part := lines[from..to];
    forall i | 0 <= i < |part| - 1 ensures Terminated(part[i]) && !Fuse(part[i], part[i + 1]) {
      assert part[i] == lines[from + i] && part[i + 1] == lines[from + i + 1];
    }
  }

  lemma {:induction false} BatchesAreFiles(lines: seq<Line>, n: nat)
    requires n > 0 && IsFile(lines)
    ensures forall i :: 0 <= i < |Batches(lines, n)| ==> IsFile(Batches(lines, n)[i]) && Batches(lines, n)[i] != []
  {
    if |lines| > n {
      FilePart(lines, 0, n);
      FilePart(lines, n, |lines|);
      BatchesAreFiles(lines[n..], n);
      assert lines[0..n] == lines[..n] && lines[n..|lines|] == lines[n..];
    }
  }

  /** The text of the chunk file for each batch. */
  function ChunkFiles(le: Order, batches: Rests): (r: seq<string>)
    ensures |r| == |batches|
  {
    if batches == [] then [] else [Concat(Sort(le, batches[0]))] + ChunkFiles(le, batches[1..])
  }

  function ReadBack(files: seq<string>): (r: Rests)
    ensures |r| == |files|
    ensures forall i :: 0 <= i < |r| ==> r[i] == Lines(files[i])
  {
    if files == [] then [] else [Lines(files[0])] + ReadBack(files[1..])
  }

  ghost predicate AllSortable(le: Order, batches: Rests) {
    forall i :: 0 <= i < |batches| ==> Sortable(le, batches[i])
  }

  /** A chunk file of a sortable batch is read back; of any other there are fewer lines. */
  lemma ChunkReadsBack(le: Order, batch: seq<Line>)
    requires TotalPreorder(le) && IsFile(batch)
    ensures Sortable(le, batch) ==> Lines(Concat(Sort(le, batch))) == Sort(le, batch)
    ensures !Sortable(le, batch) ==> |Lines(Concat(Sort(le, batch)))| < |batch|
  {
    SortIsFileIff(le, batch);
    LinesOfText(Sort(le, batch));
    SortIsPermutation(le, batch);
    assert |multiset(Sort(le, batch))| == |multiset(batch)|;
  }

  ghost predicate AllFiles(batches: Rests) {
    forall i :: 0 <= i < |batches| ==> IsFile(batches[i])
  }

  lemma {:induction false} ChunksReadBack(le: Order, batches: Rests)
    requires TotalPreorder(le) && AllFiles(batches)
    ensures AllSortable(le, batches) ==> ReadBack(ChunkFiles(le, batches)) == SortAll(le, batches)
    ensures !AllSortable(le, batches) ==> |Concat(ReadBack(ChunkFiles(le, batches)))| < |Concat(batches)|
    ensures |Concat(ReadBack(ChunkFiles(le, batches)))| <= |Concat(batches)|
  {
    if batches != [] {
      var batch, rest := batches[0], batches[1..];
      ChunkReadsBack(le, batch);
      ChunksReadBack(le, rest);
      SortIsPermutation(le, batch);
      assert |multiset(Sort(le, batch))| == |multiset(batch)|;
      assert ChunkFiles(le, batches)[1..] == ChunkFiles(le, rest);
      assert ReadBack(ChunkFiles(le, batches))[1..] == ReadBack(ChunkFiles(le, rest));
      assert AllSortable(le, batches) <==> Sortable(le, batch) && AllSortable(le, rest) by {
        assert forall i :: 0 < i < |batches| ==> batches[i] == rest[i - 1];
      }
    }
  }

  lemma {:induction false} ChunkFilesAppend(le: Order, batches: Rests, batch: seq<Line>, t: string)
    requires t == Concat(Sort(le, batch))
    ensures ChunkFiles(le, batches + [batch]) == ChunkFiles(le, batches) + [t]
  {
    var all := batches + [batch];
    if batches == [] {
      assert all[1..] == [] && all[0] == batch;
    } else {
      var rest := batches[1..];
      ChunkFilesAppend(le, rest, batch, t);
      assert all[1..] == rest + [batch] && all[0] == batches[0];
    }
  }

  lemma NextBatch(lines: seq<Line>, from: nat, to: nat, n: nat)
    requires n > 0 && from < to <= |lines| && to == if from + n <= |lines| then from + n else |lines|
    ensures Batches(lines[from..], n) == [lines[from..to]] + Batches(lines[to..], n)
  {
    var rest := lines[from..];
    if |rest| <= n {
      assert rest == lines[from..to] && lines[to..] == [];
    } else {
      assert rest[..n] == lines[from..to] && rest[n..] == lines[to..];
    }
  }

  /** `files` are the chunk files of `pieces`, the batches of the first `pos` lines. */
  ghost predicate Written(le: Order, lines: seq<Line>, n: nat, pos: nat, files: seq<string>, pieces: Rests)
    requires n > 0
  {
    && pos <= |lines|
    && files == ChunkFiles(le, pieces)
    && Batches(lines, n) == pieces + Batches(lines[pos..], n)
  }

  lemma NextChunk(le: Order, lines: seq<Line>, n: nat, from: nat, to: nat, files: seq<string>, pieces: Rests)
    requires n > 0 && Written(le, lines, n, from, files, pieces)
    requires from < to <= |lines| && to == if from + n <= |lines| then from + n else |lines|
    ensures
      Written(le, lines, n, to, files + [Concat(Sort(le, lines[from..to]))], pieces + [lines[from..to]])
  {
    var batch := lines[from..to];
    NextBatch(lines, from, to, n);
    ChunkFilesAppend(le, pieces, batch, Concat(Sort(le, batch)));
    Shift(pieces, batch, Batches(lines[to..], n));
  }

  lemma AllWritten(le: Order, lines: seq<Line>, n: nat, files: seq<string>, pieces: Rests)
    requires n > 0 && Written(le, lines, n, |lines|, files, pieces)
    ensures files == ChunkFiles(le, Batches(lines, n))
  {
    assert lines[|lines|..] == [];
    assert pieces + [] == pieces;
  }

  /** The loop of `batch_sort`, which writes a file for each batch until one is empty. */
  method WriteChunks(le: Order, lines: seq<Line>, bufferSize: nat) returns (files: seq<string>)
    ensures files == if bufferSize == 0 then [] else ChunkFiles(le, Batches(lines, bufferSize))
  {
    var i := 0;
    files := [];
    ghost var pieces: Rests := [];
    assert lines[0..] == lines;
    while true
      invariant i <= |lines|
      invariant if bufferSize == 0 then i == 0 && files == [] else Written(le, lines, bufferSize, i, files, pieces)
      decreases |lines| - i
    {
      var to := if i + bufferSize <= |lines| then i + bufferSize else |lines|;
      var current := lines[i..to];
      if current == [] {
        break;
      }
      NextChunk(le, lines, bufferSize, i, to, files, pieces);
      files := files + [Concat(Sort(le, current))];
      pieces := pieces + [current];
      i := to;
    }
    if bufferSize > 0 {
      AllWritten(le, lines, bufferSize, files, pieces);
    }
  }

  lemma {:induction false} ConcatLines(pieces: seq<seq<Line>>)
    requires forall i :: 0 <= i < |pieces| ==> AllLines(pieces[i])
    ensures AllLines(Concat(pieces))
  {
    if pieces != [] {
      ConcatLines(pieces[1..]);
    }
  }

  lemma {:induction false} ChunksNotEmpty(le: Order, batches: Rests)
    requires AllFiles(batches) && forall i :: 0 <= i < |batches| ==> batches[i] != []
    ensures forall i :: 0 <= i < |batches| ==> ReadBack(ChunkFiles(le, batches))[i] != []
  {
    if batches != [] {
      var batch, rest := batches[0], batches[1..];
      ChunksNotEmpty(le, rest);
      SortIsLines(le, batch);
      SortIsPermutation(le, batch);
      assert |multiset(Sort(le, batch))| == |multiset(batch)|;
      FirstOf(Sort(le, batch));
    }
  }

  /** What `merge` makes of the chunk files. */
  ghost predicate MergedFrom(le: Order, merged: seq<Line>, chunks: Rests) {
    && multiset(merged) == multiset(Concat(chunks))
    && (AllSorted(le, chunks) ==> merged == Sort(le, Concat(chunks)))
  }

  lemma MergedLines(le: Order, files: seq<string>, merged: seq<Line>)
    requires MergedFrom(le, merged, ReadBack(files))
    ensures |merged| == |Concat(ReadBack(files))|
    ensures |Lines(Concat(merged))| <= |merged|
  {
    var chunks := ReadBack(files);
    forall i | 0 <= i < |chunks| ensures AllLines(chunks[i]) {
      LinesIsFile(files[i]);
    }
    ConcatLines(chunks);
    forall i | 0 <= i < |merged| ensures IsLine(merged[i]) {
      assert merged[i] in multiset(merged);
      assert merged[i] in Concat(chunks);
    }
    LinesOfText(merged);
    assert |multiset(merged)| == |multiset(Concat(chunks))|;
  }

  /** Batches that can be sorted: everything depends on whether the whole can be. */
  lemma GoodBatches(le: Order, lines: seq<Line>, batches: Rests, merged: seq<Line>)
    requires TotalPreorder(le) && IsFile(lines) && Concat(batches) == lines
    requires MergedFrom(le, merged, SortAll(le, batches))
    ensures Lines(Concat(merged)) == Sort(le, lines) <==> Sortable(le, lines)
  {
    SortPiecesFirst(le, batches);
    SortIsFileIff(le, lines);
    LinesOfText(Sort(le, lines));
    LinesIsFile(Concat(merged));
  }

  lemma Outcome(le: Order, lines: seq<Line>, batches: Rests, merged: seq<Line>)
    requires TotalPreorder(le) && IsFile(lines)
    requires AllFiles(batches) && Concat(batches) == lines
    requires MergedFrom(le, merged, ReadBack(ChunkFiles(le, batches)))
    ensures Lines(Concat(merged)) == Sort(le, lines) <==> Sortable(le, lines) && AllSortable(le, batches)
  {
    ChunksReadBack(le, batches);
    if AllSortable(le, batches) {
      GoodBatches(le, lines, batches, merged);
    } else {
      MergedLines(le, ChunkFiles(le, batches), merged);
      SortIsPermutation(le, lines);
      assert |multiset(Sort(le, lines))| == |multiset(lines)|;
    }
  }

  // Without carriage returns

  predicate NoReturns(lines: seq<Line>) {
    forall i :: 0 <= i < |lines| ==> '\r' !in lines[i]
  }

  lemma {:induction false} NoReturnsIn(lines: seq<Line>)
    requires '\r' !in Concat(lines)
    ensures NoReturns(lines)
  {
    if lines != [] {
      NoReturnsIn(lines[1..]);
      assert forall i :: 0 < i < |lines| ==> lines[i] == lines[1..][i - 1];
    }
  }

  lemma PlainSortable(le: Order, lines: seq<Line>)
    requires NoReturns(lines)
    ensures Sortable(le, lines) <==> AllTerminated(lines) || LastIsGreatest(le, lines)
  {
    var r := Sort(le, lines);
    SortIsPermutation(le, lines);
    forall i | 0 <= i < |r| - 1 ensures !Fuse(r[i], r[i + 1]) {
      assert r[i] in multiset(r);
      assert r[i] in lines;
    }
  }

  lemma ReturnLines()
    ensures Lines("\n\t\r") == ["\n", "\t\r"]
  {
    var xs: seq<Line> := ["\n", "\t\r"];
    LinesOfText(xs);
    assert xs[1..] == ["\t\r"];
    assert Concat(["\t\r"]) == "\t\r" + Concat([]) == "\t\r";
    assert Concat(xs) == "\n" + "\t\r" == "\n\t\r";
  }

  /** A file whose two lines, sorted, are one line: its first line is bare and its second ends in "\r". */
  lemma ReturnFuses(le: Order)
    requires TotalPreorder(le) && !le("\n", "\t\r")
    ensures Lines("\n\t\r") == ["\n", "\t\r"]
    ensures Sort(le, ["\n", "\t\r"]) == ["\t\r", "\n"] && !Sortable(le, ["\n", "\t\r"])
  {
    var xs: seq<Line> := ["\n", "\t\r"];
    ReturnLines();
    assert IsFirstMin(le, xs, 1);
    FirstMinUnique(le, xs, 1);
    assert Without(xs, 1) == ["\n"];
    assert Fuse(Sort(le, xs)[0], Sort(le, xs)[1]);
  }

  /** Only the last batch can have a line that is not terminated. */
  lemma {:induction false} PlainBatches(le: Order, lines: seq<Line>, n: nat)
    requires n > 0 && IsFile(lines) && NoReturns(lines)
    requires AllTerminated(lines) || LastIsGreatest(le, lines)
    ensures AllSortable(le, Batches(lines, n))
  {
    if lines == [] {
    } else if |lines| <= n {
      PlainSortable(le, lines);
    } else {
      var batch, rest := lines[..n], lines[n..];
      FilePart(lines, n, |lines|);
      assert lines[n..|lines|] == rest;
      PlainBatches(le, rest, n);
      PlainSortable(le, batch);
    }
  }

  /**
   * `batch_sort`: the lines of the output are the stable sort of the lines of
   * the input if and only if the input is empty, or batches are not empty,
   * each of them is sortable, and so is the whole.
   */
  method BatchSort(le: Order, input: string, bufferSize: nat) returns (output: string)
    requires TotalPreorder(le)
    ensures Lines(output) == Sort(le, Lines(input)) <==>
      input == "" || (bufferSize > 0 && Sortable(le, Lines(input)) && AllSortable(le, Batches(Lines(input), bufferSize)))
    ensures '\r' !in input ==>
      (Lines(output) == Sort(le, Lines(input)) <==>
        input == "" || (bufferSize > 0 && (AllTerminated(Lines(input)) || LastIsGreatest(le, Lines(input)))))
  {
    var files := WriteChunks(le, Lines(input), bufferSize);
    var chunks := ReadBack(files);
    var merged := Merge(le, chunks);
    output := Concat(merged);
    ghost var lines := Lines(input);
    LinesIsFile(input);
    if bufferSize > 0 {
      ghost var batches := Batches(lines, bufferSize);
      BatchesJoin(lines, bufferSize);
      BatchesAreFiles(lines, bufferSize);
      ChunksNotEmpty(le, batches);
      Outcome(le, lines, batches, merged);
      if '\r' !in input {
        NoReturnsIn(lines);
        PlainSortable(le, lines);
        if AllTerminated(lines) || LastIsGreatest(le, lines) {
          PlainBatches(le, lines, bufferSize);
        }
      }
    }
  }
}
