/** The k-way merge `merge_linked_lists` of src/file_parser.rs. Each input
    list holds the instruction blocks one disassembly worker produced, in
    the order it produced them. The merge keeps a vector of streams (one per
    non-empty list) ordered by the first address of each stream's next block,
    repeatedly takes the stream at the back of the vector, emits its block and
    re-inserts the advanced stream by scanning from the back.

    The vector's ordering is a parameter: `Ascending` is the code as written
    (back = largest), which `FileParser.DissasmFast` uses; `Descending` is the
    ordering its comment describes (back = smallest), which
    `FileParser.DissasmFastCorrected` uses. */
module Merge {
  import opened Basics
  import opened Instructions

  /** One worker's output for one address region; never empty. */
  type Block = seq<InstructionDetail>

  datatype Order = Ascending | Descending

  /** A list being consumed: the block it offers next and the blocks after
      it. `origin` records which input list the stream came from. */
  datatype Stream = Stream(nextBlock: Block, remaining: seq<Block>, origin: nat)

  /** One emission of the merge: a whole block and the list it came from. */
  datatype Emitted = Emitted(origin: nat, block: Block)

  predicate NonEmptyBlocks(bs: seq<Block>) {
    forall i :: 0 <= i < |bs| ==> |bs[i]| > 0
  }

  predicate WellFormed(s: Stream) {
    |s.nextBlock| > 0 && NonEmptyBlocks(s.remaining)
  }

  predicate AllWellFormed(ss: seq<Stream>) {
    forall i :: 0 <= i < |ss| ==> WellFormed(ss[i])
  }

  /** The address a block starts at (blocks are never empty; an empty one
      would stop the source with a panic). */
  function HeadAddress(b: Block): int {
    if b == [] then 0 else b[0].address
  }

  /** The sort key: the address of the first instruction of the next block. */
  function Key(s: Stream): int {
    HeadAddress(s.nextBlock)
  }

  /** Key `a` goes strictly before key `b` in the stream vector. */
  predicate Before(order: Order, a: int, b: int) {
    match order
    case Ascending => a < b
    case Descending => a > b
  }

  /** No stream comes strictly before one to its left. */
  predicate Sorted(order: Order, ss: seq<Stream>) {
    forall i, j :: 0 <= i < j < |ss| ==> !Before(order, Key(ss[j]), Key(ss[i]))
  }

  /** No two streams come from the same input list. */
  predicate DistinctOrigins(ss: seq<Stream>) {
    forall i, j :: 0 <= i < j < |ss| ==> ss[i].origin != ss[j].origin
  }

  /** No stream comes from input list `o`. */
  predicate LacksOrigin(ss: seq<Stream>, o: nat) {
    forall i :: 0 <= i < |ss| ==> ss[i].origin != o
  }

  /** The blocks a stream still holds, in order. */
  function Blocks(s: Stream): seq<Block> {
    [s.nextBlock] + s.remaining
  }

  // ---------------------------------------------------------------------
  // Building and ordering the stream vector

  /** The streams built from the non-empty input lists, in list order. */
  function InitialStreams(lists: seq<seq<Block>>): (ss: seq<Stream>)
    ensures forall i :: 0 <= i < |ss| ==> ss[i].origin < |lists|
    ensures forall i, j :: 0 <= i < j < |ss| ==> ss[i].origin < ss[j].origin
  {
    if lists == [] then []
    else
      var n := |lists| - 1;
      InitialStreams(lists[..n]) +
        (if lists[n] == [] then [] else [Stream(lists[n][0], lists[n][1..], n)])
  }

  /** Where the scan from the back stops: right after the last stream that
      key `k` does not go strictly before. */
  function InsertionIndex(ss: seq<Stream>, k: int, order: Order): (r: nat)
    ensures r <= |ss|
  {
    if ss == [] then 0
    else if Before(order, k, Key(ss[|ss| - 1])) then InsertionIndex(ss[..|ss| - 1], k, order)
    else |ss|
  }

  /** The new key goes strictly before every stream right of the insertion
      point and not before the stream just left of it. */
  lemma {:induction false} InsertionPoint(ss: seq<Stream>, k: int, order: Order)
    ensures var r := InsertionIndex(ss, k, order);
      && (forall j :: r <= j < |ss| ==> Before(order, k, Key(ss[j])))
      && (r > 0 ==> !Before(order, k, Key(ss[r - 1])))
  {
    if ss != [] && Before(order, k, Key(ss[|ss| - 1])) {
      var prefix := ss[..|ss| - 1];
      InsertionPoint(prefix, k, order);
      var r := InsertionIndex(ss, k, order);
      forall j | r <= j < |ss| ensures Before(order, k, Key(ss[j])) {
        if j < |ss| - 1 {
          assert ss[j] == prefix[j];
        }
      }
      if r > 0 {
        assert ss[r - 1] == prefix[r - 1];
      }
    }
  }

  /** `streams.insert(insert_index, stream)` at the index the scan finds. */
  function Insert(ss: seq<Stream>, x: Stream, order: Order): (r: seq<Stream>)
    ensures |r| == |ss| + 1
    ensures multiset(r) == multiset(ss) + multiset{x}
  {
    var i := InsertionIndex(ss, Key(x), order);
    assert ss == ss[..i] + ss[i..];
    ss[..i] + [x] + ss[i..]
  }

  /** Inserting at the scanned index keeps the vector sorted. */
  lemma InsertSorted(ss: seq<Stream>, x: Stream, order: Order)
    requires Sorted(order, ss)
    ensures Sorted(order, Insert(ss, x, order))
  {
    var i := InsertionIndex(ss, Key(x), order);
    var r := Insert(ss, x, order);
    assert r == ss[..i] + [x] + ss[i..];
    forall p, q | 0 <= p < q < |r|
      ensures !Before(order, Key(r[q]), Key(r[p]))
    {
      InsertedPair(ss, x, order, i, p, q);
    }
  }

  /** One pair of positions of the vector after the insertion. */
  lemma InsertedPair(ss: seq<Stream>, x: Stream, order: Order, i: nat, p: nat, q: nat)
    requires Sorted(order, ss) && i == InsertionIndex(ss, Key(x), order)
    requires p < q <= |ss|
    ensures var r := ss[..i] + [x] + ss[i..];
      !Before(order, Key(r[q]), Key(r[p]))
  {
    var r := ss[..i] + [x] + ss[i..];
    if q < i {
      assert r[p] == ss[p] && r[q] == ss[q];
    } else if q == i {
      assert r[p] == ss[p] && r[q] == x;
      LeftOfInsertion(ss, x, order, i, p);
    } else if p < i {
      assert r[p] == ss[p] && r[q] == ss[q - 1];
      LeftOfInsertion(ss, x, order, i, p);
      InsertionPoint(ss, Key(x), order);
      assert Before(order, Key(x), Key(ss[q - 1]));
    } else if p == i {
      assert r[p] == x && r[q] == ss[q - 1];
      InsertionPoint(ss, Key(x), order);
    } else {
      assert r[p] == ss[p - 1] && r[q] == ss[q - 1];
    }
  }

  /** Every stream left of the insertion point has a key the new key does
      not go before. */
  lemma LeftOfInsertion(ss: seq<Stream>, x: Stream, order: Order, i: nat, p: nat)
    requires Sorted(order, ss) && i == InsertionIndex(ss, Key(x), order) && p < i
    ensures !Before(order, Key(x), Key(ss[p]))
  {
    InsertionPoint(ss, Key(x), order);
    assert !Before(order, Key(x), Key(ss[i - 1]));
    assert p == i - 1 || !Before(order, Key(ss[i - 1]), Key(ss[p]));
  }

  /** `sort_by_key` on the first address: a stable insertion sort that
      places each stream after every earlier one with an equal key. */
  function SortStreams(ss: seq<Stream>, order: Order): (r: seq<Stream>)
    ensures Sorted(order, r)
    ensures multiset(r) == multiset(ss)
  {
    if ss == [] then []
    else
      var n := |ss| - 1;
      assert ss == ss[..n] + [ss[n]];
      var sorted := SortStreams(ss[..n], order);
      InsertSorted(sorted, ss[n], order);
      Insert(sorted, ss[n], order)
  }

  // ---------------------------------------------------------------------
  // The pop / emit / re-insert loop as a function

  /** The number of blocks still held by the streams. */
  function Pending(ss: seq<Stream>): nat {
    if ss == [] then 0 else 1 + |ss[0].remaining| + Pending(ss[1..])
  }

  lemma {:induction false} PendingAppend(a: seq<Stream>, b: seq<Stream>)
    ensures Pending(a + b) == Pending(a) + Pending(b)
  {
    if a == [] {
      assert a + b == b;
    } else {
      assert (a + b)[1..] == a[1..] + b;
      PendingAppend(a[1..], b);
    }
  }

  function Last(ss: seq<Stream>): Stream
    requires ss != []
  {
    ss[|ss| - 1]
  }

  /** The stream `s` after its next block was emitted. */
  function Advance(s: Stream): (r: Stream)
    requires s.remaining != []
    ensures r.origin == s.origin && Blocks(r) == s.remaining
  {
    Stream(s.remaining[0], s.remaining[1..], s.origin)
  }

  /** The vector after one round: the back stream popped, and re-inserted
      advanced when it has blocks left. */
  function Step(ss: seq<Stream>, order: Order): seq<Stream>
    requires ss != []
  {
    var s := Last(ss);
    var rest := ss[..|ss| - 1];
    if s.remaining == [] then rest else Insert(rest, Advance(s), order)
  }

  lemma PendingInsert(ss: seq<Stream>, x: Stream, order: Order)
    ensures Pending(Insert(ss, x, order)) == Pending(ss) + 1 + |x.remaining|
  {
    var i := InsertionIndex(ss, Key(x), order);
    assert ss == ss[..i] + ss[i..];
    PendingAppend(ss[..i], ss[i..]);
    PendingAppend(ss[..i] + [x], ss[i..]);
    PendingAppend(ss[..i], [x]);
    assert Pending([x]) == 1 + |x.remaining| + Pending([x][1..]);
  }

  /** A round consumes exactly one pending block. */
  lemma StepShrinks(ss: seq<Stream>, order: Order)
    requires ss != []
    ensures Pending(Step(ss, order)) + 1 == Pending(ss)
  {
    var s := Last(ss);
    var rest := ss[..|ss| - 1];
    assert ss == rest + [s];
    PendingAppend(rest, [s]);
    assert Pending([s]) == 1 + |s.remaining| + Pending([s][1..]);
    if s.remaining != [] {
      PendingInsert(rest, Advance(s), order);
    }
  }

  /** Every block the loop emits, in emission order. */
  function Drain(ss: seq<Stream>, order: Order): seq<Emitted>
    decreases Pending(ss)
  {
    if ss == [] then []
    else
      StepShrinks(ss, order);
      [Emitted(Last(ss).origin, Last(ss).nextBlock)] + Drain(Step(ss, order), order)
  }

  function BlocksOf(es: seq<Emitted>): (bs: seq<Block>)
    ensures |bs| == |es| && forall i :: 0 <= i < |es| ==> bs[i] == es[i].block
  {
    if es == [] then [] else BlocksOf(es[..|es| - 1]) + [es[|es| - 1].block]
  }

  function Flatten(bs: seq<Block>): seq<InstructionDetail> {
    if bs == [] then [] else Flatten(bs[..|bs| - 1]) + bs[|bs| - 1]
  }

  /** The final pass: the k-th instruction gets serial number k. */
  function Renumber(xs: seq<InstructionDetail>): (r: seq<InstructionDetail>)
    ensures |r| == |xs|
    ensures forall k :: 0 <= k < |xs| ==> r[k] == xs[k].(serialNumber := k)
  {
    seq(|xs|, k requires 0 <= k < |xs| => xs[k].(serialNumber := k))
  }

  /** What `merge_linked_lists` returns for `lists` under `order`. */
  function MergeSpec(lists: seq<seq<Block>>, order: Order): seq<InstructionDetail> {
    var init := InitialStreams(lists);
    Renumber(Flatten(BlocksOf(Drain(SortStreams(init, order), order))))
  }

  lemma {:induction false} InitialWellFormed(lists: seq<seq<Block>>)
    requires forall l :: 0 <= l < |lists| ==> NonEmptyBlocks(lists[l])
    ensures AllWellFormed(InitialStreams(lists))
  {
    if lists != [] {
      var n := |lists| - 1;
      InitialWellFormed(lists[..n]);
    }
  }

  // ---------------------------------------------------------------------
  // The imperative merge

  lemma EmitOne(emitted: seq<Emitted>, e: Emitted)
    ensures Flatten(BlocksOf(emitted + [e])) == Flatten(BlocksOf(emitted)) + e.block
  {
    assert (emitted + [e])[..|emitted|] == emitted;
  }

  lemma Regroup(done: seq<Emitted>, e: Emitted, rest: seq<Emitted>, total: seq<Emitted>)
    requires done + ([e] + rest) == total
    ensures (done + [e]) + rest == total
  {
  }

  /** One step of the scan on the prefix `ss[..i]`. */
  lemma ScanStep(ss: seq<Stream>, i: nat, k: int, order: Order)
    requires 0 < i <= |ss|
    ensures InsertionIndex(ss[..i], k, order)
         == if Before(order, k, Key(ss[i - 1])) then InsertionIndex(ss[..i - 1], k, order) else i
  {
    assert ss[..i][..i - 1] == ss[..i - 1];
  }

  /** The bubble-up scan of the loop body: from the back, step left while
      the new key goes strictly before the key to the left. */
  method ScanInsertIndex(streams: seq<Stream>, firstAddress: int, order: Order) returns (insertIndex: nat)
    ensures insertIndex == InsertionIndex(streams, firstAddress, order)
  {
    insertIndex := |streams|;
    assert streams[..insertIndex] == streams;
    while insertIndex > 0 && Before(order, firstAddress, Key(streams[insertIndex - 1]))
      invariant 0 <= insertIndex <= |streams|
      invariant InsertionIndex(streams[..insertIndex], firstAddress, order)
             == InsertionIndex(streams, firstAddress, order)
    {
      ScanStep(streams, insertIndex, firstAddress, order);
      insertIndex := insertIndex - 1;
    }
    if insertIndex > 0 {
      ScanStep(streams, insertIndex, firstAddress, order);
    }
  }

  /** The final `iter_mut().enumerate()` pass over the merged vector. */
  method RenumberInPlace(acc: seq<InstructionDetail>) returns (merged: seq<InstructionDetail>)
    ensures merged == Renumber(acc)
  {
    merged := acc;
    for k := 0 to |merged|
      invariant |merged| == |acc|
      invariant forall j :: 0 <= j < k ==> merged[j] == acc[j].(serialNumber := j)
      invariant forall j :: k <= j < |merged| ==> merged[j] == acc[j]
    {
      merged := merged[k := merged[k].(serialNumber := k)];
    }
  }

  /** The initial vector: one stream per non-empty list, sorted by key. */
  method StartStreams(lists: seq<seq<Block>>, order: Order) returns (streams: seq<Stream>)
    requires forall l :: 0 <= l < |lists| ==> NonEmptyBlocks(lists[l])
    ensures AllWellFormed(streams) && Sorted(order, streams)
    ensures streams == SortStreams(InitialStreams(lists), order)
  {
    InitialWellFormed(lists);
    streams := SortStreams(InitialStreams(lists), order);
    PermutedWellFormed(InitialStreams(lists), streams);
  }

  /** One round of the loop body: pop the back stream, then bubble the
      advanced stream up from the back when it has blocks left. */
  method PopAndReinsert(streams: seq<Stream>, order: Order)
      returns (block: Block, origin: nat, next: seq<Stream>)
    requires streams != [] && AllWellFormed(streams) && Sorted(order, streams)
    ensures block == Last(streams).nextBlock && origin == Last(streams).origin
    ensures AllWellFormed(next) && Sorted(order, next) && Pending(next) < Pending(streams)
    ensures Drain(streams, order) == [Emitted(origin, block)] + Drain(next, order)
  {
    var stream := streams[|streams| - 1];
    next := streams[..|streams| - 1];
    block, origin := stream.nextBlock, stream.origin;
    if stream.remaining != [] {
      var nextBlock := stream.remaining[0];
      var firstAddress := nextBlock[0].address;
      stream := Stream(nextBlock, stream.remaining[1..], stream.origin);
      var insertIndex := ScanInsertIndex(next, firstAddress, order);
      InsertSorted(next, stream, order);
      next := next[..insertIndex] + [stream] + next[insertIndex..];
    }
    assert next == Step(streams, order);
    StepWellFormed(streams, order);
    StepShrinks(streams, order);
  }

  /** The `while let Some(stream) = streams.pop()` loop: emits the blocks
      in the order `Drain` gives. */
  method EmitAll(streams0: seq<Stream>, order: Order) returns (acc: seq<InstructionDetail>)
    requires AllWellFormed(streams0) && Sorted(order, streams0)
    ensures acc == Flatten(BlocksOf(Drain(streams0, order)))
  {
    var streams := streams0;
    ghost var emitted: seq<Emitted> := [];
    acc := [];
    while streams != []
      invariant AllWellFormed(streams) && Sorted(order, streams)
      invariant emitted + Drain(streams, order) == Drain(streams0, order)
      invariant acc == Flatten(BlocksOf(emitted))
      decreases Pending(streams)
    {
      var block, origin, next := PopAndReinsert(streams, order);
      EmitOne(emitted, Emitted(origin, block));
      Regroup(emitted, Emitted(origin, block), Drain(next, order), Drain(streams0, order));
      acc := acc + block;
      emitted := emitted + [Emitted(origin, block)];
      streams := next;
    }
    assert emitted + [] == emitted;
  }

  /** `merge_linked_lists`: pops the back stream, emits its next block and
      re-inserts the advanced stream until no stream is left, then
      renumbers. */
  method MergeLinkedLists(lists: seq<seq<Block>>, order: Order) returns (merged: seq<InstructionDetail>)
    requires forall l :: 0 <= l < |lists| ==> NonEmptyBlocks(lists[l])
    ensures merged == MergeSpec(lists, order)
    ensures forall k :: 0 <= k < |merged| ==> merged[k].serialNumber == k
  {
    var streams := StartStreams(lists, order);
    var acc := EmitAll(streams, order);
    merged := RenumberInPlace(acc);
  }

  // ---------------------------------------------------------------------
  // No block is lost, duplicated or reordered within its list

  /** The blocks the streams from input list `l` still hold, in order. */
  function StreamBlocks(ss: seq<Stream>, l: nat): seq<Block> {
    if ss == [] then []
    else (if ss[0].origin == l then Blocks(ss[0]) else []) + StreamBlocks(ss[1..], l)
  }

  /** The emitted blocks that came from input list `l`, in emission order. */
  function Project(es: seq<Emitted>, l: nat): seq<Block> {
    if es == [] then []
    else (if es[0].origin == l then [es[0].block] else []) + Project(es[1..], l)
  }

  lemma {:induction false} StreamBlocksAppend(a: seq<Stream>, b: seq<Stream>, l: nat)
    ensures StreamBlocks(a + b, l) == StreamBlocks(a, l) + StreamBlocks(b, l)
  {
    if a == [] {
      assert a + b == b;
    } else {
      assert (a + b)[1..] == a[1..] + b;
      StreamBlocksAppend(a[1..], b, l);
    }
  }

  lemma {:induction false} StreamBlocksLacking(ss: seq<Stream>, l: nat)
    requires LacksOrigin(ss, l)
    ensures StreamBlocks(ss, l) == []
  {
    if ss != [] {
      StreamBlocksLacking(ss[1..], l);
    }
  }

  /** Inserting a stream of a new origin adds exactly its blocks to that
      origin and changes no other. */
  lemma InsertKeepsLists(ss: seq<Stream>, x: Stream, order: Order, l: nat)
    requires LacksOrigin(ss, x.origin)
    ensures StreamBlocks(Insert(ss, x, order), l) == StreamBlocks(ss, l) + StreamBlocks([x], l)
  {
    var i := InsertionIndex(ss, Key(x), order);
    var a, b := ss[..i], ss[i..];
    assert Insert(ss, x, order) == (a + [x]) + b;
    assert a + b == ss;
    StreamBlocksAppend(a + [x], b, l);
    StreamBlocksAppend(a, [x], l);
    StreamBlocksAppend(a, b, l);
    if x.origin == l {
      assert LacksOrigin(a, l) && LacksOrigin(b, l);
      StreamBlocksLacking(a, l);
      StreamBlocksLacking(b, l);
    } else {
      assert StreamBlocks([x], l) == [] + StreamBlocks([], l);
    }
    MoveEmpty(StreamBlocks(a, l), StreamBlocks([x], l), StreamBlocks(b, l));
  }

  /** Moving a middle part to the end changes nothing when either it or
      both of its neighbours are empty. */
  lemma MoveEmpty<T>(a: seq<T>, x: seq<T>, b: seq<T>)
    requires (a == [] && b == []) || x == []
    ensures (a + x) + b == (a + b) + x
  {
    if x == [] {
      assert a + x == a && (a + b) + x == a + b;
    } else {
      assert a + x == x && a + b == [];
    }
  }

  lemma InsertDistinct(ss: seq<Stream>, x: Stream, order: Order)
    requires DistinctOrigins(ss) && LacksOrigin(ss, x.origin)
    ensures DistinctOrigins(Insert(ss, x, order))
  {
    var i := InsertionIndex(ss, Key(x), order);
    var r := Insert(ss, x, order);
    forall p, q | 0 <= p < q < |r| ensures r[p].origin != r[q].origin {
      if p < i && q > i {
        assert r[p] == ss[p] && r[q] == ss[q - 1];
      } else if p > i {
        assert r[p] == ss[p - 1] && r[q] == ss[q - 1];
      }
    }
  }

  /** Streams that are a rearrangement of streams lacking origin `o` lack it too. */
  lemma LacksOriginPermuted(a: seq<Stream>, b: seq<Stream>, o: nat)
    requires multiset(a) == multiset(b) && LacksOrigin(a, o)
    ensures LacksOrigin(b, o)
  {
    forall i | 0 <= i < |b| ensures b[i].origin != o {
      assert b[i] in multiset(b);
      assert b[i] in a;
    }
  }

  /** Sorting keeps each list's blocks and the distinct origins. */
  lemma {:induction false} SortKeepsLists(ss: seq<Stream>, order: Order, l: nat)
    requires DistinctOrigins(ss)
    ensures DistinctOrigins(SortStreams(ss, order))
    ensures StreamBlocks(SortStreams(ss, order), l) == StreamBlocks(ss, l)
  {
    if ss != [] {
      var n := |ss| - 1;
      var prefix := ss[..n];
      assert ss == prefix + [ss[n]];
      SortKeepsLists(prefix, order, l);
      var sorted := SortStreams(prefix, order);
      assert LacksOrigin(prefix, ss[n].origin);
      LacksOriginPermuted(prefix, sorted, ss[n].origin);
      InsertKeepsLists(sorted, ss[n], order, l);
      InsertDistinct(sorted, ss[n], order);
      StreamBlocksAppend(prefix, [ss[n]], l);
      assert SortStreams(ss, order) == Insert(sorted, ss[n], order);
    }
  }

  /** The initial streams hold exactly the input lists. */
  lemma {:induction false} InitialKeepsLists(lists: seq<seq<Block>>, l: nat)
    ensures DistinctOrigins(InitialStreams(lists))
    ensures StreamBlocks(InitialStreams(lists), l) == if l < |lists| then lists[l] else []
  {
    if lists == [] {
    } else {
      var n := |lists| - 1;
      var tail := if lists[n] == [] then [] else [Stream(lists[n][0], lists[n][1..], n)];
      InitialKeepsLists(lists[..n], l);
      StreamBlocksAppend(InitialStreams(lists[..n]), tail, l);
      if l == n {
        StreamBlocksLacking(InitialStreams(lists[..n]), l);
        if lists[n] != [] {
          assert StreamBlocks(tail, l) == Blocks(tail[0]) + [];
          assert Blocks(tail[0]) == lists[n];
        }
      } else if tail != [] {
        assert StreamBlocks(tail, l) == [] + [];
      }
    }
  }

  /** One round takes the back stream's next block off its list. */
  lemma SingleStreamBlocks(x: Stream, l: nat)
    ensures StreamBlocks([x], l) == if x.origin == l then Blocks(x) else []
  {
    assert [x][1..] == [];
  }

  /** Re-inserting the advanced back stream leaves its remaining blocks. */
  lemma AdvancedKeepsLists(rest: seq<Stream>, s: Stream, order: Order, l: nat)
    requires s.remaining != [] && DistinctOrigins(rest) && LacksOrigin(rest, s.origin)
    ensures DistinctOrigins(Insert(rest, Advance(s), order))
    ensures StreamBlocks(Insert(rest, Advance(s), order), l)
         == StreamBlocks(rest, l) + (if s.origin == l then s.remaining else [])
  {
    InsertKeepsLists(rest, Advance(s), order, l);
    InsertDistinct(rest, Advance(s), order);
    SingleStreamBlocks(Advance(s), l);
  }

  lemma StepKeepsLists(ss: seq<Stream>, order: Order, l: nat)
    requires ss != [] && DistinctOrigins(ss)
    ensures DistinctOrigins(Step(ss, order))
    ensures StreamBlocks(ss, l)
         == (if Last(ss).origin == l then [Last(ss).nextBlock] else []) + StreamBlocks(Step(ss, order), l)
  {
    PopKeepsLists(ss, l);
    SingleStreamBlocks(Last(ss), l);
    if Last(ss).remaining != [] {
      AdvancedKeepsLists(ss[..|ss| - 1], Last(ss), order, l);
      ReinsertedBlocks(ss, order, l);
    } else {
      ExhaustedBlocks(ss, order, l);
    }
  }

  /** The list algebra of a round whose back stream has more blocks. */
  lemma ReinsertedBlocks(ss: seq<Stream>, order: Order, l: nat)
    requires ss != [] && Last(ss).remaining != []
    requires var s, rest := Last(ss), ss[..|ss| - 1];
      && StreamBlocks(ss, l) == StreamBlocks(rest, l) + StreamBlocks([s], l)
      && StreamBlocks([s], l) == (if s.origin == l then Blocks(s) else [])
      && (s.origin == l ==> StreamBlocks(rest, l) == [])
      && StreamBlocks(Insert(rest, Advance(s), order), l)
         == StreamBlocks(rest, l) + (if s.origin == l then s.remaining else [])
    ensures StreamBlocks(ss, l)
         == (if Last(ss).origin == l then [Last(ss).nextBlock] else []) + StreamBlocks(Step(ss, order), l)
  {
    var s, rest := Last(ss), ss[..|ss| - 1];
    var after := StreamBlocks(Step(ss, order), l);
    assert Step(ss, order) == Insert(rest, Advance(s), order);
    if s.origin == l {
      assert after == [] + s.remaining == s.remaining;
      assert StreamBlocks(ss, l) == [] + Blocks(s) == Blocks(s);
    } else {
      assert after == StreamBlocks(rest, l) + [] == StreamBlocks(rest, l);
      assert StreamBlocks(ss, l) == StreamBlocks(rest, l) + [];
    }
  }

  /** The list algebra of a round that uses up the back stream. */
  lemma ExhaustedBlocks(ss: seq<Stream>, order: Order, l: nat)
    requires ss != [] && Last(ss).remaining == []
    requires var s, rest := Last(ss), ss[..|ss| - 1];
      && StreamBlocks(ss, l) == StreamBlocks(rest, l) + StreamBlocks([s], l)
      && StreamBlocks([s], l) == (if s.origin == l then Blocks(s) else [])
      && (s.origin == l ==> StreamBlocks(rest, l) == [])
    ensures StreamBlocks(ss, l)
         == (if Last(ss).origin == l then [Last(ss).nextBlock] else []) + StreamBlocks(Step(ss, order), l)
  {
    var s, rest := Last(ss), ss[..|ss| - 1];
    assert Step(ss, order) == rest;
    assert Blocks(s) == [s.nextBlock];
    if s.origin == l {
      assert StreamBlocks(ss, l) == [] + [s.nextBlock];
    } else {
      assert StreamBlocks(ss, l) == StreamBlocks(rest, l) + [];
    }
  }

  /** Popping the back stream splits off its blocks. */
  lemma PopKeepsLists(ss: seq<Stream>, l: nat)
    requires ss != [] && DistinctOrigins(ss)
    ensures var rest := ss[..|ss| - 1];
      && DistinctOrigins(rest) && LacksOrigin(rest, Last(ss).origin)
      && StreamBlocks(ss, l) == StreamBlocks(rest, l) + StreamBlocks([Last(ss)], l)
      && (Last(ss).origin == l ==> StreamBlocks(rest, l) == [])
  {
    var s := Last(ss);
    var rest := ss[..|ss| - 1];
    assert ss == rest + [s];
    StreamBlocksAppend(rest, [s], l);
    assert LacksOrigin(rest, s.origin);
    if s.origin == l {
      StreamBlocksLacking(rest, l);
    }
  }

  /** The blocks emitted from each list are exactly that list's blocks, in
      order. */
  lemma {:induction false} DrainKeepsLists(ss: seq<Stream>, order: Order, l: nat)
    requires DistinctOrigins(ss)
    ensures Project(Drain(ss, order), l) == StreamBlocks(ss, l)
    decreases Pending(ss)
  {
    if ss != [] {
      var es := Drain(ss, order);
      StepKeepsLists(ss, order, l);
      StepShrinks(ss, order);
      DrainKeepsLists(Step(ss, order), order, l);
      assert es[1..] == Drain(Step(ss, order), order);
    }
  }

  lemma {:induction false} ProjectHasOwnBlock(es: seq<Emitted>, i: nat)
    requires i < |es|
    ensures Project(es, es[i].origin) != []
  {
    if i > 0 {
      ProjectHasOwnBlock(es[1..], i - 1);
    }
  }

  /** The merge is an interleaving of the input lists: every emitted block
      comes from one of them, and the blocks from list `l` are emitted
      exactly in list `l`'s order, each once. Empty lists contribute
      nothing. This holds for both vector orders. */
  lemma MergeKeepsEachList(lists: seq<seq<Block>>, order: Order)
    ensures var es := Drain(SortStreams(InitialStreams(lists), order), order);
      && (forall l :: 0 <= l < |lists| ==> Project(es, l) == lists[l])
      && (forall i :: 0 <= i < |es| ==> es[i].origin < |lists|)
  {
    var init := InitialStreams(lists);
    var sorted := SortStreams(init, order);
    var es := Drain(sorted, order);
    forall l: nat ensures Project(es, l) == if l < |lists| then lists[l] else [] {
      InitialKeepsLists(lists, l);
      SortKeepsLists(init, order, l);
      DrainKeepsLists(sorted, order, l);
    }
    forall i | 0 <= i < |es| ensures es[i].origin < |lists| {
      ProjectHasOwnBlock(es, i);
    }
  }

  // ---------------------------------------------------------------------
  // Emission order

  /** Blocks whose first addresses never decrease. */
  predicate AscendingBlocks(bs: seq<Block>) {
    forall i, j :: 0 <= i < j < |bs| ==> HeadAddress(bs[i]) <= HeadAddress(bs[j])
  }

  /** Every stream after a round is one of the untouched streams or the
      advanced back stream. */
  lemma StepMembers(ss: seq<Stream>, order: Order)
    requires ss != []
    ensures forall y :: y in Step(ss, order) ==>
      y in ss[..|ss| - 1] || (Last(ss).remaining != [] && y == Advance(Last(ss)))
  {
    var s := Last(ss);
    var rest := ss[..|ss| - 1];
    if s.remaining != [] {
      forall y | y in Step(ss, order)
        ensures y in rest || y == Advance(s)
      {
        assert y in multiset(Insert(rest, Advance(s), order));
      }
    }
  }

  /** A round keeps the stream vector sorted. */
  lemma StepSorted(ss: seq<Stream>, order: Order)
    requires ss != [] && Sorted(order, ss)
    ensures Sorted(order, Step(ss, order))
  {
    var rest := ss[..|ss| - 1];
    assert Sorted(order, rest) by {
      forall i, j | 0 <= i < j < |rest| ensures !Before(order, Key(rest[j]), Key(rest[i])) {
        assert rest[i] == ss[i] && rest[j] == ss[j];
      }
    }
    if Last(ss).remaining != [] {
      InsertSorted(rest, Advance(Last(ss)), order);
    }
  }

  /** After a round of the corrected merge, the streams are still sorted,
      still ascend internally and start no lower than the key just emitted. */
  lemma CorrectedStep(ss: seq<Stream>)
    requires ss != [] && Sorted(Descending, ss)
    requires forall i :: 0 <= i < |ss| ==> AscendingBlocks(Blocks(ss[i]))
    ensures var next := Step(ss, Descending);
      && Sorted(Descending, next)
      && forall i :: 0 <= i < |next| ==>
           AscendingBlocks(Blocks(next[i])) && Key(next[i]) >= Key(Last(ss))
  {
    var next := Step(ss, Descending);
    StepSorted(ss, Descending);
    StepMembers(ss, Descending);
    forall i | 0 <= i < |next| ensures AscendingBlocks(Blocks(next[i])) && Key(next[i]) >= Key(Last(ss)) {
      if next[i] in ss[..|ss| - 1] {
        UntouchedBounded(ss, next[i]);
      } else {
        AdvanceAscends(Last(ss));
      }
    }
  }

  /** A stream the round leaves alone ascends and starts no lower than the
      emitted one. */
  lemma UntouchedBounded(ss: seq<Stream>, y: Stream)
    requires ss != [] && Sorted(Descending, ss)
    requires forall i :: 0 <= i < |ss| ==> AscendingBlocks(Blocks(ss[i]))
    requires y in ss[..|ss| - 1]
    ensures AscendingBlocks(Blocks(y)) && Key(y) >= Key(Last(ss))
  {
    var j :| 0 <= j < |ss| - 1 && ss[j] == y;
    assert !Before(Descending, Key(ss[|ss| - 1]), Key(ss[j]));
  }

  /** The rest of an ascending stream ascends and starts no lower. */
  lemma AdvanceAscends(s: Stream)
    requires s.remaining != [] && AscendingBlocks(Blocks(s))
    ensures AscendingBlocks(Blocks(Advance(s))) && Key(Advance(s)) >= Key(s)
  {
    assert Blocks(s)[1..] == Blocks(Advance(s));
    assert HeadAddress(Blocks(s)[0]) <= HeadAddress(Blocks(s)[1]);
  }

  /** No emitted block starts below `m`. */
  predicate StartsFrom(es: seq<Emitted>, m: int) {
    forall i :: 0 <= i < |es| ==> HeadAddress(es[i].block) >= m
  }

  /** The emitted blocks start at non-decreasing addresses. */
  predicate EmittedAscending(es: seq<Emitted>) {
    forall i, j :: 0 <= i < j < |es| ==> HeadAddress(es[i].block) <= HeadAddress(es[j].block)
  }

  /** With the back of the vector holding the smallest key, a merge of
      streams whose own blocks ascend emits blocks in ascending order of
      first address, none below the smallest key present. */
  lemma {:induction false} CorrectedDrainAscends(ss: seq<Stream>, m: int)
    requires Sorted(Descending, ss)
    requires forall i :: 0 <= i < |ss| ==> AscendingBlocks(Blocks(ss[i])) && Key(ss[i]) >= m
    ensures StartsFrom(Drain(ss, Descending), m) && EmittedAscending(Drain(ss, Descending))
    decreases Pending(ss)
  {
    if ss != [] {
      var k := Key(Last(ss));
      var next := Step(ss, Descending);
      CorrectedStep(ss);
      StepShrinks(ss, Descending);
      CorrectedDrainAscends(next, k);
      var later := Drain(next, Descending);
      var es := Drain(ss, Descending);
      assert es == [Emitted(Last(ss).origin, Last(ss).nextBlock)] + later;
      PrependAscending(es[0], later, m, k);
    }
  }

  lemma PrependAscending(e: Emitted, later: seq<Emitted>, m: int, k: int)
    requires HeadAddress(e.block) == k && k >= m
    requires StartsFrom(later, k) && EmittedAscending(later)
    ensures StartsFrom([e] + later, m) && EmittedAscending([e] + later)
  {
    var es := [e] + later;
    forall i | 0 < i < |es| ensures HeadAddress(es[i].block) >= k {
      assert es[i] == later[i - 1];
    }
    forall i, j | 0 <= i < j < |es| ensures HeadAddress(es[i].block) <= HeadAddress(es[j].block) {
      if i > 0 {
        assert es[i] == later[i - 1] && es[j] == later[j - 1];
      }
    }
  }

  /** The corrected merge (back of the vector = smallest key) emits the
      blocks in ascending order of first address whenever each worker's
      list is itself in ascending order. */
  lemma CorrectedMergeAscends(lists: seq<seq<Block>>)
    requires forall l :: 0 <= l < |lists| ==> AscendingBlocks(lists[l])
    ensures EmittedAscending(Drain(SortStreams(InitialStreams(lists), Descending), Descending))
  {
    var init := InitialStreams(lists);
    InitialStreamsAscend(lists);
    var sorted := SortStreams(init, Descending);
    PermutedAscend(init, sorted);
    CorrectedDrainAscends(sorted, 0);
  }

  lemma PermutedAscend(a: seq<Stream>, b: seq<Stream>)
    requires multiset(a) == multiset(b)
    requires forall i :: 0 <= i < |a| ==> AscendingBlocks(Blocks(a[i]))
    ensures forall i :: 0 <= i < |b| ==> AscendingBlocks(Blocks(b[i])) && Key(b[i]) >= 0
  {
    forall i | 0 <= i < |b| ensures AscendingBlocks(Blocks(b[i])) {
      assert b[i] in multiset(b);
      assert b[i] in a;
    }
  }

  lemma InitialStreamsAscend(lists: seq<seq<Block>>)
    requires forall l :: 0 <= l < |lists| ==> AscendingBlocks(lists[l])
    ensures forall i :: 0 <= i < |InitialStreams(lists)| ==> AscendingBlocks(Blocks(InitialStreams(lists)[i]))
  {
    var init := InitialStreams(lists);
    forall i | 0 <= i < |init| ensures AscendingBlocks(Blocks(init[i])) {
      InitialKeepsLists(lists, init[i].origin);
      StreamBlocksSingle(init, i);
    }
  }

  /** A rearrangement of well-formed streams is well formed. */
  lemma PermutedWellFormed(a: seq<Stream>, b: seq<Stream>)
    requires AllWellFormed(a) && multiset(a) == multiset(b)
    ensures AllWellFormed(b)
  {
    forall i | 0 <= i < |b| ensures WellFormed(b[i]) {
      assert b[i] in multiset(b);
      assert b[i] in a;
    }
  }

  /** A round keeps every stream well formed. */
  lemma StepWellFormed(ss: seq<Stream>, order: Order)
    requires ss != [] && AllWellFormed(ss)
    ensures AllWellFormed(Step(ss, order))
  {
    StepMembers(ss, order);
    var next := Step(ss, order);
    forall i | 0 <= i < |next| ensures WellFormed(next[i]) {
      assert next[i] in next;
      if next[i] in ss[..|ss| - 1] {
        var j :| 0 <= j < |ss| - 1 && ss[..|ss| - 1][j] == next[i];
        assert ss[j] == next[i];
      }
    }
  }

  /** With distinct origins, the blocks of origin `ss[i].origin` are the
      blocks of `ss[i]`. */
  lemma {:induction false} StreamBlocksSingle(ss: seq<Stream>, i: nat)
    requires DistinctOrigins(ss) && i < |ss|
    ensures StreamBlocks(ss, ss[i].origin) == Blocks(ss[i])
  {
    var o := ss[i].origin;
    assert ss == ss[..i] + [ss[i]] + ss[i + 1..];
    StreamBlocksAppend(ss[..i] + [ss[i]], ss[i + 1..], o);
    StreamBlocksAppend(ss[..i], [ss[i]], o);
    assert LacksOrigin(ss[..i], o);
    assert LacksOrigin(ss[i + 1..], o);
    StreamBlocksLacking(ss[..i], o);
    StreamBlocksLacking(ss[i + 1..], o);
    assert StreamBlocks([ss[i]], o) == Blocks(ss[i]) + StreamBlocks([], o);
  }

  /** As written, the vector is ascending and the back is popped, so every
      round emits the block with the LARGEST first address present. */
  lemma AsWrittenEmitsLargestFirst(ss: seq<Stream>)
    requires ss != [] && Sorted(Ascending, ss)
    ensures forall i :: 0 <= i < |ss| ==> Key(ss[i]) <= HeadAddress(Drain(ss, Ascending)[0].block)
  {
    forall i | 0 <= i < |ss| ensures Key(ss[i]) <= Key(Last(ss)) {
      if i < |ss| - 1 {
        assert !Before(Ascending, Key(ss[|ss| - 1]), Key(ss[i]));
      }
    }
  }

  function Probe(address: u64): InstructionDetail {
    InstructionDetail(0, address, "nop", "", 1)
  }

  /** Two workers, one block each, at addresses 0 and 100. */
  function ProbeLists(): seq<seq<Block>> {
    [[[Probe(0)]], [[Probe(100)]]]
  }

  lemma ProbeStreams()
    ensures InitialStreams(ProbeLists()) == [Stream([Probe(0)], [], 0), Stream([Probe(100)], [], 1)]
  {
    var lists := ProbeLists();
    assert lists[..1] == [[[Probe(0)]]] && lists[..1][..0] == [];
    assert [[Probe(0)]][1..] == [] && [[Probe(100)]][1..] == [];
    assert InitialStreams(lists[..1]) == [] + [Stream([Probe(0)], [], 0)];
  }

  lemma ProbeSorted()
    ensures var s0, s1 := Stream([Probe(0)], [], 0), Stream([Probe(100)], [], 1);
      && SortStreams([s0, s1], Ascending) == [s0, s1]
      && SortStreams([s0, s1], Descending) == [s1, s0]
  {
    var s0, s1 := Stream([Probe(0)], [], 0), Stream([Probe(100)], [], 1);
    assert Key(s0) == 0 && Key(s1) == 100;
    SortTwoInserts(s0, s1, Ascending);
    SortTwoAscending(s0, s1);
    SortTwoInserts(s0, s1, Descending);
    SortTwoDescending(s0, s1);
  }

  /** Sorting two streams inserts the second beside the first. */
  lemma SortTwoInserts(x: Stream, y: Stream, order: Order)
    ensures var i := InsertionIndex([x], Key(y), order);
      SortStreams([x, y], order) == [x][..i] + [y] + [x][i..]
  {
    SortOne(x, order);
    assert [x, y][..1] == [x];
  }

  lemma SortOne(x: Stream, order: Order)
    ensures SortStreams([x], order) == [x]
  {
    assert [x][..0] == [];
    assert SortStreams([x], order) == Insert([], x, order);
  }

  lemma SortTwoAscending(x: Stream, y: Stream)
    requires Key(x) < Key(y)
    ensures var i := InsertionIndex([x], Key(y), Ascending);
      [x][..i] + [y] + [x][i..] == [x, y]
  {
    assert InsertionIndex([x], Key(y), Ascending) == 1;
    assert [x][..1] + [y] + [x][1..] == [x, y];
  }

  lemma SortTwoDescending(x: Stream, y: Stream)
    requires Key(x) < Key(y)
    ensures var i := InsertionIndex([x], Key(y), Descending);
      [x][..i] + [y] + [x][i..] == [y, x]
  {
    assert [x][..0] == [];
    assert InsertionIndex([x], Key(y), Descending) == 0;
    assert [x][..0] + [y] + [x][0..] == [y, x];
  }

  lemma ProbeDrained()
    ensures var s0, s1 := Stream([Probe(0)], [], 0), Stream([Probe(100)], [], 1);
      && Drain([s0, s1], Ascending) == [Emitted(1, [Probe(100)]), Emitted(0, [Probe(0)])]
      && Drain([s1, s0], Descending) == [Emitted(0, [Probe(0)]), Emitted(1, [Probe(100)])]
  {
    var s0, s1 := Stream([Probe(0)], [], 0), Stream([Probe(100)], [], 1);
    var e0, e1 := Emitted(0, [Probe(0)]), Emitted(1, [Probe(100)]);
    assert Step([s0, s1], Ascending) == [s0];
    assert Step([s0], Ascending) == [];
    assert Drain([s0], Ascending) == [e0] + Drain([], Ascending);
    assert Drain([s0, s1], Ascending) == [e1] + Drain([s0], Ascending);
    assert Step([s1, s0], Descending) == [s1];
    assert Step([s1], Descending) == [];
    assert Drain([s1], Descending) == [e1] + Drain([], Descending);
    assert Drain([s1, s0], Descending) == [e0] + Drain([s1], Descending);
  }

  lemma ProbeRenumbered()
    ensures var e0, e1 := Emitted(0, [Probe(0)]), Emitted(1, [Probe(100)]);
      && Renumber(Flatten(BlocksOf([e1, e0]))) == [Probe(100), Probe(0).(serialNumber := 1)]
      && Renumber(Flatten(BlocksOf([e0, e1]))) == [Probe(0), Probe(100).(serialNumber := 1)]
  {
    var e0, e1 := Emitted(0, [Probe(0)]), Emitted(1, [Probe(100)]);
    assert [e1, e0][..1] == [e1] && [e0, e1][..1] == [e0];
    assert [e1][..0] == [] && [e0][..0] == [];
    assert BlocksOf([e1, e0]) == [[Probe(100)], [Probe(0)]];
    assert BlocksOf([e0, e1]) == [[Probe(0)], [Probe(100)]];
    assert [[Probe(100)], [Probe(0)]][..1] == [[Probe(100)]];
    assert [[Probe(0)], [Probe(100)]][..1] == [[Probe(0)]];
    assert Flatten([[Probe(100)]]) == [Probe(100)];
    assert Flatten([[Probe(0)]]) == [Probe(0)];
  }

  /** The code as written returns the instruction at 100 before the one at
      0; the corrected order returns them by address. */
  lemma AsWrittenMergeOutOfOrder()
    ensures MergeSpec(ProbeLists(), Ascending) == [Probe(100), Probe(0).(serialNumber := 1)]
    ensures MergeSpec(ProbeLists(), Descending) == [Probe(0), Probe(100).(serialNumber := 1)]
  {
    var s0, s1 := Stream([Probe(0)], [], 0), Stream([Probe(100)], [], 1);
    var e0, e1 := Emitted(0, [Probe(0)]), Emitted(1, [Probe(100)]);
    ProbeStreams();
    ProbeSorted();
    ProbeDrained();
    ProbeRenumbered();
    ProbeMerged(Ascending, [s0, s1], [e1, e0]);
    ProbeMerged(Descending, [s1, s0], [e0, e1]);
  }

  /** The merge of the probe lists, from its sorted streams and its rounds. */
  lemma ProbeMerged(order: Order, sorted: seq<Stream>, drained: seq<Emitted>)
    requires SortStreams(InitialStreams(ProbeLists()), order) == sorted
    requires Drain(sorted, order) == drained
    ensures MergeSpec(ProbeLists(), order) == Renumber(Flatten(BlocksOf(drained)))
  {
  }
}
