/** How an upload is cut into requests (src/lib/vision-limits.ts). */
module VisionLimits {

  /** A file to upload, as far as batching sees it. */
  datatype Item = Item(id: int, size: nat)

  type Batch = seq<Item>

  function Bytes(b: Batch): nat {
    if b == [] then 0 else Bytes(b[..|b| - 1]) + b[|b| - 1].size
  }

  function Flat(bs: seq<Batch>): seq<Item> {
    if bs == [] then [] else Flat(bs[..|bs| - 1]) + bs[|bs| - 1]
  }

  /** A batch that may be sent: not empty, and within the limit unless it is one oversized item. */
  predicate Sendable(b: Batch, maxBytes: int) { b != [] && (|b| == 1 || Bytes(b) <= maxBytes) }

  /** A way to cut the items, in order, into sendable batches. */
  ghost predicate Plan(bs: seq<Batch>, items: seq<Item>, maxBytes: int) {
    Flat(bs) == items && forall i :: 0 <= i < |bs| ==> Sendable(bs[i], maxBytes)
  }

  lemma {:induction false} FlatAppend(a: seq<Batch>, b: seq<Batch>)
    ensures Flat(a + b) == Flat(a) + Flat(b)
  {
    if b == [] {
      assert a + b == a && Flat(a) + [] == Flat(a);
    } else {
      assert (a + b)[..|a + b| - 1] == a + b[..|b| - 1];
      FlatAppend(a, b[..|b| - 1]);
      assert Flat(a) + Flat(b[..|b| - 1]) + b[|b| - 1] == Flat(a) + (Flat(b[..|b| - 1]) + b[|b| - 1]);
    }
  }

  lemma BytesPush(b: Batch, x: Item)
    ensures Bytes(b + [x]) == Bytes(b) + x.size
  {
    assert (b + [x])[..|b|] == b;
  }

  lemma FlatPush(bs: seq<Batch>, b: Batch)
    ensures Flat(bs + [b]) == Flat(bs) + b
  {
    assert (bs + [b])[..|bs|] == bs;
  }

  lemma {:induction false} BytesAppend(a: Batch, b: Batch)
    ensures Bytes(a + b) == Bytes(a) + Bytes(b)
  {
    if b == [] {
      assert a + b == a;
    } else {
      assert (a + b)[..|a + b| - 1] == a + b[..|b| - 1];
      BytesAppend(a, b[..|b| - 1]);
    }
  }

  /** No batch would have held the first item of the batch after it. */
  ghost predicate Greedy(bs: seq<Batch>, maxBytes: int) {
    && (forall i :: 0 <= i < |bs| ==> Sendable(bs[i], maxBytes))
    && (forall i :: 0 <= i < |bs| - 1 ==> Bytes(bs[i]) + bs[i + 1][0].size > maxBytes)
  }

  lemma GrowLast(bs: seq<Batch>, cur: Batch, it: Item, maxBytes: int)
    requires cur != [] && Greedy(bs + [cur], maxBytes) && Bytes(cur) + it.size <= maxBytes
    ensures Greedy(bs + [cur + [it]], maxBytes)
  {
    var before, after := bs + [cur], bs + [cur + [it]];
    BytesPush(cur, it);
    forall i | 0 <= i < |after|
      ensures Sendable(after[i], maxBytes)
    {
      assert before[i] == if i < |bs| then bs[i] else cur;
      assert after[i] == if i < |bs| then bs[i] else cur + [it];
    }
    forall i | 0 <= i < |after| - 1
      ensures Bytes(after[i]) + after[i + 1][0].size > maxBytes
    {
      assert after[i] == before[i] && after[i + 1][0] == before[i + 1][0];
    }
  }

  lemma CloseLast(bs: seq<Batch>, cur: Batch, it: Item, maxBytes: int)
    requires Greedy(bs + [cur], maxBytes) && Bytes(cur) + it.size > maxBytes
    ensures Greedy(bs + [cur] + [[it]], maxBytes)
  {
    var before, after := bs + [cur], bs + [cur] + [[it]];
    forall i | 0 <= i < |after| - 1
      ensures Bytes(after[i]) + after[i + 1][0].size > maxBytes
    {
      assert i < |bs| ==> after[i] == before[i] && after[i + 1] == before[i + 1];
    }
  }

  /** `planBatches`. */
  method PlanBatches(items: seq<Item>, maxBytes: int) returns (batches: seq<Batch>)
    ensures Plan(batches, items, maxBytes) && Greedy(batches, maxBytes)
  {
    batches := [];
    var cur: Batch := [];
    var bytes := 0;
    for n := 0 to |items|
      invariant Flat(batches) + cur == items[..n] && bytes == Bytes(cur)
      invariant if n == 0 then batches == [] && cur == [] else cur != [] && Greedy(batches + [cur], maxBytes)
    {
      var it := items[n];
      ghost var was, open := batches, cur;
      if |cur| > 0 && bytes + it.size > maxBytes {
        FlatPush(batches, cur);
        CloseLast(batches, cur, it, maxBytes);
        batches := batches + [cur];
        cur := [];
        bytes := 0;
      } else if |cur| > 0 {
        GrowLast(batches, cur, it, maxBytes);
      }
      BytesPush(cur, it);
      assert items[..n + 1] == items[..n] + [it];
      assert Flat(batches) + (cur + [it]) == items[..n + 1];
      cur := cur + [it];
      bytes := bytes + it.size;
    }
    assert items[..|items|] == items;
    if |cur| > 0 {
      FlatPush(batches, cur);
      batches := batches + [cur];
    }
  }

  // ------------------------------------------------------------------------------------------
  // No plan has fewer batches
  // ------------------------------------------------------------------------------------------

  lemma FlatFirst(bs: seq<Batch>)
    requires bs != []
    ensures Flat(bs) == bs[0] + Flat(bs[1..])
  {
    assert bs == [bs[0]] + bs[1..];
    FlatAppend([bs[0]], bs[1..]);
    FlatPush([], bs[0]);
    assert [] + [bs[0]] == [bs[0]] && Flat([]) + bs[0] == bs[0];
  }

  /** A sendable batch that starts no later than a greedy one ends no later either. */
  lemma EndsNoLater(x: Batch, pre: Batch, b: Batch, next: Item, maxBytes: int)
    requires Sendable(x, maxBytes) && b != [] && Bytes(b) + next.size > maxBytes
    requires |x| > |pre| + |b| ==> x[..|pre| + |b| + 1] == pre + b + [next]
    ensures |x| <= |pre| + |b|
  {
    if |x| > |pre| + |b| {
      var k := |pre| + |b| + 1;
      assert x == x[..k] + x[k..];
      BytesAppend(x[..k], x[k..]);
      BytesPush(pre + b, next);
      BytesAppend(pre, b);
    }
  }

  /** The greedy batches stay ahead: a plan of the same items and some before them has at least as many. */
  lemma {:induction false} GreedyStaysAhead(bs: seq<Batch>, xs: seq<Batch>, pre: Batch, maxBytes: int)
    requires Greedy(bs, maxBytes) && Plan(xs, pre + Flat(bs), maxBytes)
    ensures |bs| <= |xs|
    decreases |bs|
  {
    if |bs| == 1 {
      FlatFirst(bs);
    } else if |bs| > 1 {
      var b, tail, items := bs[0], bs[1..], pre + Flat(bs);
      FlatFirst(bs);
      FlatFirst(tail);
      assert Flat(tail)[0] == tail[0][0] == bs[1][0];
      FlatFirst(xs);
      var x := xs[0];
      assert items == x + Flat(xs[1..]);
      assert items == pre + b + Flat(tail);
      if |x| > |pre| + |b| {
        assert x[..|pre| + |b| + 1] == items[..|pre| + |b| + 1] == pre + b + [bs[1][0]];
      }
      EndsNoLater(x, pre, b, bs[1][0], maxBytes);
      var pre' := (pre + b)[|x|..];
      assert Flat(xs[1..]) == items[|x|..] == pre' + Flat(tail);
      GreedyStaysAhead(tail, xs[1..], pre', maxBytes);
    }
  }

  /** Of all ways to cut the items, in order, into sendable batches, the greedy one has the fewest. */
  lemma GreedyIsFewest(bs: seq<Batch>, xs: seq<Batch>, items: seq<Item>, maxBytes: int)
    requires Plan(bs, items, maxBytes) && Greedy(bs, maxBytes) && Plan(xs, items, maxBytes)
    ensures |bs| <= |xs|
  {
    assert [] + Flat(bs) == items;
    GreedyStaysAhead(bs, xs, [], maxBytes);
  }
}
