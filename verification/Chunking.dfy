/** The chunks of a linearization. */
module Chunking {
  import opened DepGraphs
  import opened Diagrams
  import opened FeeRates
  import opened Sequences

  datatype SetInfo = SetInfo(transactions: set<nat>, feerate: FeeFrac)

  /** Every transaction of `order` has a fee and a positive size. */
  ghost predicate Priced(fees: seq<int>, sizes: seq<int>, order: seq<nat>) {
    |fees| == |sizes| && forall i :: 0 <= i < |order| ==> order[i] < |fees| && sizes[order[i]] > 0
  }

  ghost function Rates(fees: seq<int>, sizes: seq<int>, order: seq<nat>): (rs: seq<FeeFrac>)
    requires Priced(fees, sizes, order)
    ensures |rs| == |order| && Positive(rs)
  {
    seq(|order|, i requires 0 <= i < |order| => FeeFrac(fees[order[i]], sizes[order[i]]))
  }

  function Feerates(chunks: seq<SetInfo>): (rs: seq<FeeFrac>)
    ensures |rs| == |chunks|
  {
    seq(|chunks|, i requires 0 <= i < |chunks| => chunks[i].feerate)
  }

  /** `chunk` is the segment `seg`, and every part cut off in front is below
      it. */
  ghost predicate IsChunk(fees: seq<int>, sizes: seq<int>, chunk: SetInfo, seg: seq<nat>) {
    && seg != [] && Priced(fees, sizes, seg)
    && chunk.transactions == Elements(seg)
    && chunk.feerate == Total(Rates(fees, sizes, seg)) && chunk.feerate.size > 0
    && PrefixesBelow(Rates(fees, sizes, seg))
  }

  ghost predicate AreChunks(fees: seq<int>, sizes: seq<int>, chunks: seq<SetInfo>, segs: seq<seq<nat>>) {
    && |segs| == |chunks|
    && forall k :: 0 <= k < |chunks| ==> IsChunk(fees, sizes, chunks[k], segs[k])
  }

  ghost function SegRate(fees: seq<int>, sizes: seq<int>, seg: seq<nat>): (r: FeeFrac)
    requires Priced(fees, sizes, seg)
    ensures seg != [] ==> r.size > 0
  {
    TotalPositive(Rates(fees, sizes, seg));
    Total(Rates(fees, sizes, seg))
  }

  /** The segments are chunks: their feerates do not increase, and every part
      that is cut off a segment in front is below the segment. */
  ghost predicate Chunks(fees: seq<int>, sizes: seq<int>, segs: seq<seq<nat>>) {
    && (forall i :: 0 <= i < |segs| ==>
          segs[i] != [] && Priced(fees, sizes, segs[i]) && PrefixesBelow(Rates(fees, sizes, segs[i])))
    && forall i, j :: 0 <= i < j < |segs| ==>
         Cross(SegRate(fees, sizes, segs[i]), SegRate(fees, sizes, segs[j])) >= 0
  }

  lemma RatesConcat(fees: seq<int>, sizes: seq<int>, a: seq<nat>, b: seq<nat>)
    requires Priced(fees, sizes, a) && Priced(fees, sizes, b)
    ensures Priced(fees, sizes, a + b) && Rates(fees, sizes, a + b) == Rates(fees, sizes, a) + Rates(fees, sizes, b)
    ensures SegRate(fees, sizes, a + b) == SegRate(fees, sizes, a).Plus(SegRate(fees, sizes, b))
  {
    assert Rates(fees, sizes, a + b) == Rates(fees, sizes, a) + Rates(fees, sizes, b);
    TotalConcat(Rates(fees, sizes, a), Rates(fees, sizes, b));
  }

  lemma TailChunks(fees: seq<int>, sizes: seq<int>, segs: seq<seq<nat>>)
    requires Chunks(fees, sizes, segs) && segs != []
    ensures Chunks(fees, sizes, segs[1..])
  {
    assert forall i :: 0 <= i < |segs[1..]| ==> segs[1..][i] == segs[i + 1];
  }

  lemma PrefixAtMost(fees: seq<int>, sizes: seq<int>, seg: seq<nat>, n: nat)
    requires Priced(fees, sizes, seg) && PrefixesBelow(Rates(fees, sizes, seg)) && 0 < n <= |seg|
    ensures Priced(fees, sizes, seg[..n]) && Cross(SegRate(fees, sizes, seg[..n]), SegRate(fees, sizes, seg)) <= 0
    ensures n < |seg| ==> Cross(SegRate(fees, sizes, seg[..n]), SegRate(fees, sizes, seg)) < 0
  {
    RatesPrefix(fees, sizes, seg, n);
    assert seg[..|seg|] == seg;
    CrossFlip(SegRate(fees, sizes, seg), SegRate(fees, sizes, seg));
  }

  /** Nothing cut off in front of some chunks is above the first. */
  lemma {:induction false} NoneAboveFirst(fees: seq<int>, sizes: seq<int>, segs: seq<seq<nat>>, n: nat)
    requires Chunks(fees, sizes, segs) && segs != [] && 0 < n <= |Flatten(segs)|
    ensures Priced(fees, sizes, Flatten(segs)[..n])
    ensures Cross(SegRate(fees, sizes, Flatten(segs)[..n]), SegRate(fees, sizes, segs[0])) <= 0
    decreases |segs|
  {
    var first, rest := segs[0], Flatten(segs[1..]);
    var f := SegRate(fees, sizes, first);
    if n <= |first| {
      assert Flatten(segs)[..n] == first[..n];
      PrefixAtMost(fees, sizes, first, n);
    } else {
      TailChunks(fees, sizes, segs);
      var j := n - |first|;
      assert Flatten(segs)[..n] == first + rest[..j];
      NoneAboveFirst(fees, sizes, segs[1..], j);
      RatesConcat(fees, sizes, first, rest[..j]);
      AtMostChain(SegRate(fees, sizes, rest[..j]), SegRate(fees, sizes, segs[1]), f);
    }
  }

  lemma AtMostChain(y: FeeFrac, next: FeeFrac, f: FeeFrac)
    requires y.size > 0 && next.size > 0 && f.size > 0 && Cross(y, next) <= 0 && Cross(f, next) >= 0
    ensures Cross(f.Plus(y), f) <= 0
  {
    CrossFlip(f, next);
    Chain(y, next, f);
    CrossPlus(f, y, f);
    CrossFlip(f, f);
  }

  lemma FirstNotLonger(fees: seq<int>, sizes: seq<int>, a: seq<seq<nat>>, b: seq<seq<nat>>)
    requires Chunks(fees, sizes, a) && Chunks(fees, sizes, b) && a != [] && b != [] && Flatten(a) == Flatten(b)
    ensures |b[0]| <= |a[0]|
  {
    var order := Flatten(a);
    assert a[0] == order[..|a[0]|] && b[0] == order[..|b[0]|];
    NoneAboveFirst(fees, sizes, a, |b[0]|);
    NotBoth(SegRate(fees, sizes, a[0]), SegRate(fees, sizes, b[0]));
    if |a[0]| < |b[0]| {
      assert b[0][..|a[0]|] == a[0];
      PrefixAtMost(fees, sizes, b[0], |a[0]|);
    }
  }

  /** An order has one division into chunks only. */
  lemma {:induction false} OneChunking(fees: seq<int>, sizes: seq<int>, a: seq<seq<nat>>, b: seq<seq<nat>>)
    requires Chunks(fees, sizes, a) && Chunks(fees, sizes, b) && Flatten(a) == Flatten(b)
    ensures a == b
    decreases |a|
  {
    if a != [] && b != [] {
      FirstNotLonger(fees, sizes, a, b);
      FirstNotLonger(fees, sizes, b, a);
      assert a[0] == Flatten(a)[..|a[0]|] && b[0] == Flatten(b)[..|b[0]|];
      assert Flatten(a[1..]) == Flatten(a)[|a[0]|..] && Flatten(b[1..]) == Flatten(b)[|b[0]|..];
      TailChunks(fees, sizes, a);
      TailChunks(fees, sizes, b);
      OneChunking(fees, sizes, a[1..], b[1..]);
      assert a == [a[0]] + a[1..] && b == [b[0]] + b[1..];
    }
  }

  lemma {:induction false} RatesOfSegments(fees: seq<int>, sizes: seq<int>, chunks: seq<SetInfo>, segs: seq<seq<nat>>)
    returns (parts: seq<seq<FeeFrac>>)
    requires AreChunks(fees, sizes, chunks, segs)
    ensures |fees| == |sizes| || segs == []
    ensures segs != [] ==> Priced(fees, sizes, Flatten(segs)) && Flatten(parts) == Rates(fees, sizes, Flatten(segs))
    ensures segs == [] ==> parts == []
    ensures Totals(parts) == Feerates(chunks)
  {
    if segs == [] {
      parts := [];
    } else {
      var rest := RatesOfSegments(fees, sizes, chunks[1..], segs[1..]);
      var first := Rates(fees, sizes, segs[0]);
      parts := [first] + rest;
      assert parts[1..] == rest;
      assert Feerates(chunks)[1..] == Feerates(chunks[1..]);
      assert forall k :: 1 <= k < |parts| ==> Totals(parts)[k] == Totals(rest)[k - 1];
      if rest == [] {
        assert |segs| == 1;
        assert Flatten(segs) == segs[0];
        assert Flatten(parts) == first;
      } else {
        assert Flatten(segs) == segs[0] + Flatten(segs[1..]);
        assert Flatten(parts) == first + Flatten(rest);
      }
    }
  }

  /** The chunks together have the fees and sizes of the whole order, and gain
      no more than the order's highest prefix is worth. */
  lemma ChunksOfOrder(fees: seq<int>, sizes: seq<int>, chunks: seq<SetInfo>, segs: seq<seq<nat>>, order: seq<nat>)
    requires AreChunks(fees, sizes, chunks, segs) && Flatten(segs) == order && Priced(fees, sizes, order)
    ensures Positive(Feerates(chunks))
    ensures Total(Feerates(chunks)) == Total(Rates(fees, sizes, order))
    ensures forall slope: FeeFrac :: slope.size > 0 && Sorted(Feerates(chunks)) ==>
              Gain(Feerates(chunks), slope) <= Peak(Rates(fees, sizes, order), slope)
  {
    var parts := RatesOfSegments(fees, sizes, chunks, segs);
    assert Flatten(parts) == Rates(fees, sizes, order);
    TotalOfParts(parts);
    forall slope: FeeFrac | slope.size > 0 && Sorted(Feerates(chunks))
      ensures Gain(Feerates(chunks), slope) <= Peak(Rates(fees, sizes, order), slope)
    {
      PeakOfParts(parts, slope);
      SortedPeak(Feerates(chunks), slope);
    }
  }

  lemma SegmentsAreChunks(fees: seq<int>, sizes: seq<int>, chunks: seq<SetInfo>, segs: seq<seq<nat>>)
    requires AreChunks(fees, sizes, chunks, segs) && Sorted(Feerates(chunks))
    ensures Chunks(fees, sizes, segs)
  {
    forall i | 0 <= i < |segs|
      ensures segs[i] != [] && Priced(fees, sizes, segs[i]) && PrefixesBelow(Rates(fees, sizes, segs[i]))
      ensures Feerates(chunks)[i] == SegRate(fees, sizes, segs[i])
    {
      assert IsChunk(fees, sizes, chunks[i], segs[i]);
    }
  }

  /** The chunks so far, and the one that is absorbing the last of them. */
  ghost predicate Stacked(fees: seq<int>, sizes: seq<int>, chunks: seq<SetInfo>, segs: seq<seq<nat>>,
                          cur: SetInfo, seg: seq<nat>, base: seq<FeeFrac>)
  {
    && AreChunks(fees, sizes, chunks, segs) && IsChunk(fees, sizes, cur, seg)
    && Unstacked(Feerates(chunks), cur.feerate, base)
  }

  lemma MergedChunk(fees: seq<int>, sizes: seq<int>, prev: SetInfo, before: seq<nat>, cur: SetInfo, seg: seq<nat>)
    requires IsChunk(fees, sizes, prev, before) && IsChunk(fees, sizes, cur, seg)
    requires Cross(cur.feerate, prev.feerate) > 0
    ensures IsChunk(fees, sizes, SetInfo(cur.transactions + prev.transactions, cur.feerate.Plus(prev.feerate)),
                    before + seg)
  {
    var p, m := Rates(fees, sizes, before), Rates(fees, sizes, seg);
    PrefixesBelowConcat(p, m);
    TotalConcat(p, m);
    assert Rates(fees, sizes, before + seg) == p + m;
  }

  lemma AbsorbLast(fees: seq<int>, sizes: seq<int>, chunks: seq<SetInfo>, segs: seq<seq<nat>>,
                   cur: SetInfo, seg: seq<nat>, base: seq<FeeFrac>)
    requires Stacked(fees, sizes, chunks, segs, cur, seg, base) && chunks != []
    requires Cross(cur.feerate, chunks[|chunks| - 1].feerate) > 0
    ensures var n, prev := |chunks| - 1, chunks[|chunks| - 1];
            Stacked(fees, sizes, chunks[..n], segs[..n],
                    SetInfo(cur.transactions + prev.transactions, cur.feerate.Plus(prev.feerate)), segs[n] + seg, base)
  {
    var n, prev := |chunks| - 1, chunks[|chunks| - 1];
    AbsorbTop(Feerates(chunks), cur.feerate, base);
    assert Feerates(chunks)[..n] == Feerates(chunks[..n]);
    MergedChunk(fees, sizes, prev, segs[n], cur, seg);
  }

  lemma FlattenMove(segs: seq<seq<nat>>, seg: seq<nat>)
    requires segs != []
    ensures Flatten(segs[..|segs| - 1]) + (segs[|segs| - 1] + seg) == Flatten(segs) + seg
  {
    assert segs == segs[..|segs| - 1] + [segs[|segs| - 1]];
    FlattenOnto(segs[..|segs| - 1], segs[|segs| - 1], seg);
  }

  lemma FlattenOnto(segs: seq<seq<nat>>, last: seq<nat>, seg: seq<nat>)
    ensures Flatten(segs) + (last + seg) == Flatten(segs + [last]) + seg
  {
    FlattenAppend(segs, last);
    assert Flatten(segs) + last + seg == Flatten(segs) + (last + seg);
  }

  /** The state of the loop after the transactions of `order`. */
  ghost predicate Chunked(fees: seq<int>, sizes: seq<int>, chunks: seq<SetInfo>, segs: seq<seq<nat>>, order: seq<nat>) {
    && AreChunks(fees, sizes, chunks, segs) && Priced(fees, sizes, order) && Flatten(segs) == order
    && Sorted(Feerates(chunks))
    && Covers(Feerates(chunks), Rates(fees, sizes, order))
  }

  lemma Pushed(fees: seq<int>, sizes: seq<int>, chunks: seq<SetInfo>, segs: seq<seq<nat>>,
               cur: SetInfo, seg: seq<nat>, base: seq<FeeFrac>, order: seq<nat>, next: nat)
    requires Stacked(fees, sizes, chunks, segs, cur, seg, base)
    requires chunks != [] ==> Cross(cur.feerate, chunks[|chunks| - 1].feerate) <= 0
    requires Priced(fees, sizes, order + [next]) && Priced(fees, sizes, order) && next < |fees|
    requires Covers(base, Rates(fees, sizes, order))
    requires Flatten(segs) + seg == order + [next]
    ensures Chunked(fees, sizes, chunks + [cur], segs + [seg], order + [next])
  {
    var chunks', segs', order' := chunks + [cur], segs + [seg], order + [next];
    FlattenAppend(segs, seg);
    var rs, m := Feerates(chunks), cur.feerate;
    assert Feerates(chunks') == rs + [m];
    PushOn(rs, m, base);
    assert AreChunks(fees, sizes, chunks', segs');
    ChunksOfOrder(fees, sizes, chunks', segs', order');
    RatesAppend(fees, sizes, order, next);
    PushedGain(rs, m, base, Rates(fees, sizes, order), FeeFrac(fees[next], sizes[next]));
  }

  lemma RatesPrefix(fees: seq<int>, sizes: seq<int>, order: seq<nat>, n: nat)
    requires Priced(fees, sizes, order) && n <= |order|
    ensures Priced(fees, sizes, order[..n]) && Rates(fees, sizes, order)[..n] == Rates(fees, sizes, order[..n])
  {
  }

  lemma RatesAppend(fees: seq<int>, sizes: seq<int>, order: seq<nat>, next: nat)
    requires Priced(fees, sizes, order + [next])
    ensures Priced(fees, sizes, order) && next < |fees|
    ensures Rates(fees, sizes, order + [next]) == Rates(fees, sizes, order) + [FeeFrac(fees[next], sizes[next])]
  {
    var order' := order + [next];
    assert order'[|order|] == next;
    assert forall i :: 0 <= i < |order| ==> order'[i] == order[i];
  }

  lemma StartChunk(fees: seq<int>, sizes: seq<int>, chunks: seq<SetInfo>, segs: seq<seq<nat>>, order: seq<nat>, i: nat)
    requires Chunked(fees, sizes, chunks, segs, order) && Priced(fees, sizes, [i]) && i < |fees|
    ensures Stacked(fees, sizes, chunks, segs, SetInfo({i}, FeeFrac(fees[i], sizes[i])), [i], Feerates(chunks))
  {
    var r := FeeFrac(fees[i], sizes[i]);
    ChunksOfOrder(fees, sizes, chunks, segs, order);
    assert [i][0] == i;
    assert Rates(fees, sizes, [i]) == [r] && [r][1..] == [] && [r][..0] == [] && [r][..1] == [r];
    CrossPlus(r, r, r);
    assert Feerates(chunks)[..|chunks|] == Feerates(chunks);
  }

  /** The chunks of `linearization`: each transaction starts a chunk, which
      absorbs the chunk before it while it has the strictly higher feerate. */
  method ChunkLinearizationInfo(depgraph: DepGraph, linearization: seq<nat>)
    returns (chunks: seq<SetInfo>, ghost segs: seq<seq<nat>>)
    requires Priced(depgraph.fees, depgraph.sizes, linearization)
    ensures AreChunks(depgraph.fees, depgraph.sizes, chunks, segs) && Flatten(segs) == linearization
    ensures Chunks(depgraph.fees, depgraph.sizes, segs)
    ensures Sorted(Feerates(chunks)) && Positive(Feerates(chunks))
    ensures Total(Feerates(chunks)) == Total(Rates(depgraph.fees, depgraph.sizes, linearization))
    ensures forall slope: FeeFrac :: slope.size > 0 ==>
              Gain(Feerates(chunks), slope) == Peak(Rates(depgraph.fees, depgraph.sizes, linearization), slope)
  {
    var fees, sizes := depgraph.fees, depgraph.sizes;
    chunks, segs := [], [];
    for k := 0 to |linearization|
      invariant Chunked(fees, sizes, chunks, segs, linearization[..k])
    {
      var i := linearization[k];
      ghost var order := linearization[..k];
      assert linearization[..k + 1] == order + [i];
      chunks, segs := AbsorbAndPush(fees, sizes, chunks, segs, order, i);
    }
    assert linearization[..|linearization|] == linearization;
    ChunksOfOrder(fees, sizes, chunks, segs, linearization);
    SegmentsAreChunks(fees, sizes, chunks, segs);
  }

  /** The turn of `i`, which starts a chunk. */
  method AbsorbAndPush(fees: seq<int>, sizes: seq<int>, chunks: seq<SetInfo>, ghost segs: seq<seq<nat>>,
                       ghost order: seq<nat>, i: nat)
    returns (chunks': seq<SetInfo>, ghost segs': seq<seq<nat>>)
    requires Chunked(fees, sizes, chunks, segs, order) && Priced(fees, sizes, order + [i]) && i < |fees|
    ensures Chunked(fees, sizes, chunks', segs', order + [i])
  {
    assert Priced(fees, sizes, [i]) by {
      assert (order + [i])[|order|] == i;
    }
    chunks', segs' := chunks, segs;
    var mask, fee, size := {i}, fees[i], sizes[i];
    ghost var base, seg := Feerates(chunks), [i];
    StartChunk(fees, sizes, chunks, segs, order, i);
    while chunks' != [] && fee * chunks'[|chunks'| - 1].feerate.size > chunks'[|chunks'| - 1].feerate.fee * size
      invariant Stacked(fees, sizes, chunks', segs', SetInfo(mask, FeeFrac(fee, size)), seg, base)
      invariant Flatten(segs') + seg == order + [i]
      decreases |chunks'|
    {
      var prev := chunks'[|chunks'| - 1];
      AbsorbLast(fees, sizes, chunks', segs', SetInfo(mask, FeeFrac(fee, size)), seg, base);
      FlattenMove(segs', seg);
      seg := segs'[|segs'| - 1] + seg;
      segs' := segs'[..|segs'| - 1];
      chunks' := chunks'[..|chunks'| - 1];
      mask, fee, size := mask + prev.transactions, fee + prev.feerate.fee, size + prev.feerate.size;
    }
    Pushed(fees, sizes, chunks', segs', SetInfo(mask, FeeFrac(fee, size)), seg, base, order, i);
    chunks' := chunks' + [SetInfo(mask, FeeFrac(fee, size))];
    segs' := segs' + [seg];
  }
}
