/**
 How the browser client splits a snapshot of its queue into request bodies.

 Serialisation is a total size function: an envelope, the events, and a comma between two events.
 */
module Batching {
  /** A captured event: `id` numbers the captures in order, `size` is its length in UTF-8 bytes as JSON. */
  datatype Event = Event(id: nat, size: nat)
  type Batch = seq<Event>

  datatype Limits = Limits(envelope: nat, batchSize: nat, maxBatchBytes: nat)
  datatype Grouped = Grouped(batches: seq<Batch>, rejected: nat)
  datatype Packing = Packing(batches: seq<Batch>, current: Batch, rejected: nat)

  function Bytes(events: Batch): nat {
    if events == [] then 0 else Bytes(events[..|events| - 1]) + events[|events| - 1].size
  }

  function BodySize(l: Limits, events: Batch): nat {
    l.envelope + Bytes(events) + (if events == [] then 0 else |events| - 1)
  }

  predicate FitsAlone(l: Limits, e: Event) {
    BodySize(l, [e]) <= l.maxBatchBytes
  }

  predicate Fits(l: Limits, b: Batch) {
    |b| <= l.batchSize && BodySize(l, b) <= l.maxBatchBytes
  }

  predicate AllFit(l: Limits, bs: seq<Batch>) {
    forall i {:trigger Fits(l, bs[i])} :: 0 <= i < |bs| ==> Fits(l, bs[i])
  }

  predicate AllNonEmpty(bs: seq<Batch>) {
    forall i :: 0 <= i < |bs| ==> bs[i] != []
  }

  function Flatten(bs: seq<Batch>): Batch {
    if bs == [] then [] else Flatten(bs[..|bs| - 1]) + bs[|bs| - 1]
  }

  /** The events that a body can carry at all, in order. */
  function Sendable(l: Limits, pending: Batch): Batch {
    if pending == [] then []
    else Sendable(l, pending[..|pending| - 1])
         + (if FitsAlone(l, pending[|pending| - 1]) then [pending[|pending| - 1]] else [])
  }

  // ---------------------------------------------------------------- the packing rule

  function Close(l: Limits, p: Packing): Packing {
    if |p.current| >= l.batchSize then p.(batches := p.batches + [p.current], current := []) else p
  }

  function PackOne(l: Limits, p: Packing, e: Event): Packing {
    if BodySize(l, p.current + [e]) > l.maxBatchBytes then
      if p.current == [] then p.(rejected := p.rejected + 1)
      else if !FitsAlone(l, e) then Packing(p.batches + [p.current], [], p.rejected + 1)
      else Close(l, Packing(p.batches + [p.current], [e], p.rejected))
    else Close(l, p.(current := p.current + [e]))
  }

  function Pack(l: Limits, pending: Batch): Packing {
    if pending == [] then Packing([], [], 0)
    else PackOne(l, Pack(l, pending[..|pending| - 1]), pending[|pending| - 1])
  }

  function Finish(p: Packing): Grouped {
    Grouped(if p.current == [] then p.batches else p.batches + [p.current], p.rejected)
  }

  function MakeBatches(l: Limits, pending: Batch): Grouped {
    Finish(Pack(l, pending))
  }

  /** The loop of the client. A candidate that is too large alone is refused; anything else goes out in order. */
  method MakeBatchesInOrder(l: Limits, pending: Batch) returns (batches: seq<Batch>, rejected: nat)
    requires l.batchSize >= 1
    ensures Grouped(batches, rejected) == MakeBatches(l, pending)
  {
    batches, rejected := [], 0;
    var current: Batch := [];
    for i := 0 to |pending|
      invariant Packing(batches, current, rejected) == Pack(l, pending[..i])
    {
      assert pending[..i + 1][..i] == pending[..i];
      var captured := pending[i];
      var candidate := current + [captured];
      if BodySize(l, candidate) > l.maxBatchBytes {
        if |current| == 0 {
          rejected := rejected + 1;
          continue;
        }
        batches := batches + [current];
        if BodySize(l, [captured]) > l.maxBatchBytes {
          rejected := rejected + 1;
          current := [];
        } else {
          current := [captured];
        }
      } else {
        current := candidate;
      }
      if |current| >= l.batchSize {
        batches := batches + [current];
        current := [];
      }
    }
    assert pending[..|pending|] == pending;
    if |current| > 0 {
      batches := batches + [current];
    }
  }

  // ---------------------------------------------------------------- soundness

  lemma {:induction false} BytesConcat(a: Batch, b: Batch)
    ensures Bytes(a + b) == Bytes(a) + Bytes(b)
    decreases |b|
  {
    if b == [] {
      assert a + b == a;
    } else {
      assert (a + b)[..|a + b| - 1] == a + b[..|b| - 1];
      BytesConcat(a, b[..|b| - 1]);
    }
  }

  lemma FlattenOne(bs: seq<Batch>, b: Batch)
    ensures Flatten(bs + [b]) == Flatten(bs) + b
  {
    assert (bs + [b])[..|bs|] == bs;
  }

  lemma {:induction false} FlattenConcat(a: seq<Batch>, b: seq<Batch>)
    ensures Flatten(a + b) == Flatten(a) + Flatten(b)
    decreases |b|
  {
    if b == [] {
      assert a + b == a;
    } else {
      assert a + b == (a + b[..|b| - 1]) + [b[|b| - 1]];
      FlattenConcat(a, b[..|b| - 1]);
      FlattenOne(a + b[..|b| - 1], b[|b| - 1]);
    }
  }

  lemma FlattenFirst(bs: seq<Batch>)
    requires bs != []
    ensures Flatten(bs) == bs[0] + Flatten(bs[1..])
  {
    assert bs == [bs[0]] + bs[1..];
    FlattenConcat([bs[0]], bs[1..]);
    FlattenOne([], bs[0]);
    assert [] + [bs[0]] == [bs[0]];
  }

  /** Batch a could not also have taken the first event of b. */
  predicate Tight(l: Limits, a: Batch, b: Batch) {
    b != [] ==> !Fits(l, a + [b[0]])
  }

  predicate Greedy(l: Limits, bs: seq<Batch>) {
    |bs| >= 2 ==> Tight(l, bs[0], bs[1]) && Greedy(l, bs[1..])
  }

  /** What holds of the batches already closed. */
  predicate Shipped(l: Limits, bs: seq<Batch>, greedy: bool) {
    AllFit(l, bs) && AllNonEmpty(bs) && (greedy ==> Greedy(l, bs))
  }

  /** The last closed batch is full, or could not take the start of the batch being filled. */
  predicate Follows(l: Limits, bs: seq<Batch>, current: Batch) {
    bs != [] ==>
      if current == [] then |bs[|bs| - 1]| >= l.batchSize else Tight(l, bs[|bs| - 1], current)
  }

  predicate Packed(l: Limits, p: Packing, sent: Batch) {
    && Shipped(l, p.batches, p.rejected == 0)
    && (p.rejected == 0 ==> Follows(l, p.batches, p.current))
    && (p.current != [] ==> Fits(l, p.current)) && |p.current| < l.batchSize
    && Flatten(p.batches) + p.current == sent
  }

  lemma {:induction false} GreedyAppend(l: Limits, bs: seq<Batch>, b: Batch)
    requires Greedy(l, bs) && (bs != [] ==> Tight(l, bs[|bs| - 1], b))
    ensures Greedy(l, bs + [b])
    decreases |bs|
  {
    if |bs| >= 2 {
      GreedyAppend(l, bs[1..], b);
      assert (bs + [b])[1..] == bs[1..] + [b];
    } else if |bs| == 1 {
      assert (bs + [b])[1..] == [b];
    }
  }

  lemma ShipOne(l: Limits, bs: seq<Batch>, b: Batch, greedy: bool)
    requires Shipped(l, bs, greedy) && Fits(l, b) && b != []
    requires greedy && bs != [] ==> Tight(l, bs[|bs| - 1], b)
    ensures Shipped(l, bs + [b], greedy) && Flatten(bs + [b]) == Flatten(bs) + b
  {
    FlattenOne(bs, b);
    if greedy {
      GreedyAppend(l, bs, b);
    }
  }

  lemma StillTight(l: Limits, last: Batch, current: Batch, e: Event)
    requires if current == [] then |last| >= l.batchSize else Tight(l, last, current)
    ensures Tight(l, last, current + [e])
  {}

  /** A batch that is full is closed; any other one stays open. */
  lemma Settled(l: Limits, bs: seq<Batch>, current: Batch, rejected: nat, sent: Batch)
    requires Shipped(l, bs, rejected == 0) && current != [] && Fits(l, current)
    requires rejected == 0 && bs != [] ==> Tight(l, bs[|bs| - 1], current)
    requires Flatten(bs) + current == sent
    ensures Packed(l, Close(l, Packing(bs, current, rejected)), sent)
  {
    if |current| >= l.batchSize {
      ShipOne(l, bs, current, rejected == 0);
    }
  }

  /** Appending an event to the current batch. */
  lemma Grown(l: Limits, p: Packing, e: Event, sent: Batch)
    requires Packed(l, p, sent) && BodySize(l, p.current + [e]) <= l.maxBatchBytes
    ensures Packed(l, Close(l, p.(current := p.current + [e])), sent + [e])
  {
    assert Flatten(p.batches) + (p.current + [e]) == sent + [e];
    if p.batches != [] && p.rejected == 0 {
      StillTight(l, p.batches[|p.batches| - 1], p.current, e);
    }
    Settled(l, p.batches, p.current + [e], p.rejected, sent + [e]);
  }

  /** Starting a new batch with an event that did not fit in the current one. */
  lemma Reopened(l: Limits, p: Packing, e: Event, sent: Batch)
    requires l.batchSize >= 1 && Packed(l, p, sent) && p.current != [] && FitsAlone(l, e)
    requires BodySize(l, p.current + [e]) > l.maxBatchBytes
    ensures Packed(l, Close(l, Packing(p.batches + [p.current], [e], p.rejected)), sent + [e])
  {
    ShipOne(l, p.batches, p.current, p.rejected == 0);
    Settled(l, p.batches + [p.current], [e], p.rejected, sent + [e]);
  }

  /** Refusing an event that fits nowhere closes the current batch, if there is one. */
  lemma Refused(l: Limits, p: Packing, sent: Batch)
    requires l.batchSize >= 1 && Packed(l, p, sent)
    ensures Packed(l, p.(rejected := p.rejected + 1), sent)
    ensures p.current != [] ==> Packed(l, Packing(p.batches + [p.current], [], p.rejected + 1), sent)
  {
    if p.current != [] {
      ShipOne(l, p.batches, p.current, false);
    }
  }

  lemma PackOneIsSound(l: Limits, p: Packing, e: Event, sent: Batch)
    requires l.batchSize >= 1 && Packed(l, p, sent)
    ensures Packed(l, PackOne(l, p, e), sent + (if FitsAlone(l, e) then [e] else []))
    ensures PackOne(l, p, e).rejected == p.rejected + (if FitsAlone(l, e) then 0 else 1)
  {
    BytesConcat(p.current, [e]);
    BytesConcat([], [e]);
    assert [] + [e] == [e];
    if !FitsAlone(l, e) {
      Refused(l, p, sent);
      assert sent + [] == sent;
    } else if BodySize(l, p.current + [e]) > l.maxBatchBytes {
      assert p.current != [];
      Reopened(l, p, e, sent);
    } else {
      Grown(l, p, e, sent);
    }
  }

  lemma {:induction false} PackIsSound(l: Limits, pending: Batch)
    requires l.batchSize >= 1
    ensures Packed(l, Pack(l, pending), Sendable(l, pending))
    ensures Pack(l, pending).rejected + |Sendable(l, pending)| == |pending|
    decreases |pending|
  {
    if pending == [] {
    } else {
      var front := pending[..|pending| - 1];
      PackIsSound(l, front);
      PackOneIsSound(l, Pack(l, front), pending[|pending| - 1], Sendable(l, front));
    }
  }

  lemma {:induction false} SendableAll(l: Limits, pending: Batch)
    requires forall i {:trigger FitsAlone(l, pending[i])} :: 0 <= i < |pending| ==> FitsAlone(l, pending[i])
    ensures Sendable(l, pending) == pending
    decreases |pending|
  {
    if pending == [] {
    } else {
      SendableAll(l, pending[..|pending| - 1]);
    }
  }

  /** What every split satisfies: order, both bounds, and exactly the events too large for any body refused. */
  lemma BatchesAreSound(l: Limits, pending: Batch)
    requires l.batchSize >= 1
    ensures var g := MakeBatches(l, pending);
            && AllFit(l, g.batches) && AllNonEmpty(g.batches)
            && Flatten(g.batches) == Sendable(l, pending)
            && g.rejected == |pending| - |Sendable(l, pending)|
            && (g.rejected == 0 ==> Greedy(l, g.batches))
  {
    PackIsSound(l, pending);
    var p := Pack(l, pending);
    if p.current != [] {
      ShipOne(l, p.batches, p.current, p.rejected == 0);
    }
  }

  // ---------------------------------------------------------------- minimality

  lemma PartFits(l: Limits, a: Batch, b: Batch, c: Batch)
    requires Fits(l, a + b + c)
    ensures Fits(l, b)
  {
    BytesConcat(a + b, c);
    BytesConcat(a, b);
  }

  /** A split of the same events without the first k. */
  function Skip(bs: seq<Batch>, k: nat): seq<Batch> {
    if bs == [] then []
    else if k >= |bs[0]| then Skip(bs[1..], k - |bs[0]|)
    else [bs[0][k..]] + bs[1..]
  }

  lemma {:induction false} SkipIsSplit(l: Limits, bs: seq<Batch>, k: nat)
    requires AllFit(l, bs) && k <= |Flatten(bs)|
    ensures AllFit(l, Skip(bs, k)) && |Skip(bs, k)| <= |bs|
    ensures Flatten(Skip(bs, k)) == Flatten(bs)[k..]
    decreases |bs|
  {
    if bs == [] {
    } else {
      FlattenFirst(bs);
      if k >= |bs[0]| {
        SkipIsSplit(l, bs[1..], k - |bs[0]|);
      } else {
        assert bs[0] == bs[0][..k] + bs[0][k..] + [];
        PartFits(l, bs[0][..k], bs[0][k..], []);
        FlattenFirst(Skip(bs, k));
      }
    }
  }

  /** A greedy batch takes at least as much as the first batch of any other split. */
  lemma FirstIsLongest(l: Limits, greedy: seq<Batch>, other: seq<Batch>)
    requires |greedy| >= 2 && other != [] && AllNonEmpty(greedy) && Greedy(l, greedy)
    requires AllFit(l, other) && Flatten(other) == Flatten(greedy)
    ensures |other[0]| <= |greedy[0]|
  {
    var a, b, whole := greedy[0], greedy[1], other[0];
    FlattenFirst(greedy);
    FlattenFirst(greedy[1..]);
    FlattenFirst(other);
    if |whole| > |a| {
      SamePrefix(a, b, Flatten(greedy[1..][1..]), whole, Flatten(other[1..]));
      PartFits(l, [], a + [b[0]], whole[|a| + 1..]);
      assert false;
    }
  }

  lemma SamePrefix(a: Batch, b: Batch, more: Batch, whole: Batch, rest: Batch)
    requires a + (b + more) == whole + rest && |whole| > |a| && b != []
    ensures whole == [] + (a + [b[0]]) + whole[|a| + 1..]
  {
    assert (a + (b + more))[..|a| + 1] == a + [b[0]];
    assert (whole + rest)[..|a| + 1] == whole[..|a| + 1];
  }

  /** No split of the same events, in order and within both bounds, has fewer batches than a greedy one. */
  lemma {:induction false} GreedyIsMinimal(l: Limits, greedy: seq<Batch>, other: seq<Batch>)
    requires AllNonEmpty(greedy) && Greedy(l, greedy)
    requires AllFit(l, other) && Flatten(other) == Flatten(greedy)
    ensures |greedy| <= |other|
    decreases |greedy|
  {
    if greedy == [] {
    } else {
      FlattenFirst(greedy);
      assert other != [];
      FlattenFirst(other);
      if |greedy| > 1 {
        FirstIsLongest(l, greedy, other);
        var k := |greedy[0]| - |other[0]|;
        SkipIsSplit(l, other[1..], k);
        assert Flatten(other)[|greedy[0]|..] == Flatten(other[1..])[k..];
        assert Flatten(greedy)[|greedy[0]|..] == Flatten(greedy[1..]);
        GreedyIsMinimal(l, greedy[1..], Skip(other[1..], k));
      }
    }
  }

  /** For events that capture() let through, the client sends as few bodies as any in-order split could. */
  lemma BatchesAreMinimal(l: Limits, pending: Batch, other: seq<Batch>)
    requires l.batchSize >= 1
    requires forall i {:trigger FitsAlone(l, pending[i])} :: 0 <= i < |pending| ==> FitsAlone(l, pending[i])
    requires AllFit(l, other) && Flatten(other) == pending
    ensures MakeBatches(l, pending).rejected == 0
    ensures |MakeBatches(l, pending).batches| <= |other|
  {
    BatchesAreSound(l, pending);
    SendableAll(l, pending);
    GreedyIsMinimal(l, MakeBatches(l, pending).batches, other);
  }

  const NARROW_LIMITS := Limits(60, 2, 1024)
  const SMALL := Event(0, 100)
  const HUGE := Event(1, 1000)
  const LATER := Event(2, 100)

  lemma BodySizes()
    ensures BodySize(NARROW_LIMITS, [SMALL]) == BodySize(NARROW_LIMITS, [LATER]) == 160
    ensures BodySize(NARROW_LIMITS, [HUGE]) == 1060
    ensures BodySize(NARROW_LIMITS, [SMALL, HUGE]) == 1161 && BodySize(NARROW_LIMITS, [SMALL, LATER]) == 261
  {
    BytesConcat([SMALL], [HUGE]);
    BytesConcat([SMALL], [LATER]);
    assert [SMALL] + [HUGE] == [SMALL, HUGE] && [SMALL] + [LATER] == [SMALL, LATER];
    BytesOne(SMALL);
    BytesOne(HUGE);
    BytesOne(LATER);
  }

  lemma BytesOne(e: Event)
    ensures Bytes([e]) == e.size
  {
    assert [e][..0] == [];
  }

  /** A refused event in the middle closes the open batch, so minimality needs every event to fit alone. */
  lemma RefusalCostsABatch()
    ensures MakeBatches(NARROW_LIMITS, [SMALL, HUGE, LATER]) == Grouped([[SMALL], [LATER]], 1)
    ensures AllFit(NARROW_LIMITS, [[SMALL, LATER]])
  {
    hide BodySize;
    BodySizes();
    var a, b, c := SMALL, HUGE, LATER;
    assert [] + [a] == [a] && [] + [c] == [c] && [a] + [b] == [a, b];
    PackSnoc(NARROW_LIMITS, [], a);
    PackSnoc(NARROW_LIMITS, [a], b);
    PackSnoc(NARROW_LIMITS, [a, b], c);
    assert [a, b] + [c] == [a, b, c];
  }

  lemma PackSnoc(l: Limits, pending: Batch, e: Event)
    ensures Pack(l, pending + [e]) == PackOne(l, Pack(l, pending), e)
  {
    assert (pending + [e])[..|pending + [e]| - 1] == pending;
  }
}
