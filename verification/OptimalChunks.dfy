/** Optimal linearizations of one cluster, with chunks that cannot be split, have
    the same chunks. */
module OptimalChunks {
  import opened ClosedSets
  import opened ClusterGraphs
  import opened Clusters
  import opened DepGraphs
  import opened EmissionOrders
  import opened FeeRates
  import opened MinimalChunks
  import opened Orders
  import opened Sequences
  import C = Chunking
  import D = Diagrams

  // --- the chunks of an order, and its prefixes ---

  ghost function SegRates(fees: seq<int>, sizes: seq<int>, segs: seq<seq<nat>>): (rs: seq<FeeFrac>)
    requires forall i :: 0 <= i < |segs| ==> C.Priced(fees, sizes, segs[i])
    ensures |rs| == |segs|
  {
    seq(|segs|, i requires 0 <= i < |segs| => C.SegRate(fees, sizes, segs[i]))
  }

  lemma {:induction false} FlattenPriced(fees: seq<int>, sizes: seq<int>, segs: seq<seq<nat>>)
    requires |fees| == |sizes| && forall i :: 0 <= i < |segs| ==> C.Priced(fees, sizes, segs[i])
    ensures C.Priced(fees, sizes, D.Flatten(segs))
    ensures C.SegRate(fees, sizes, D.Flatten(segs)) == D.Total(SegRates(fees, sizes, segs))
  {
    if segs != [] {
      FlattenPriced(fees, sizes, segs[1..]);
      C.RatesConcat(fees, sizes, segs[0], D.Flatten(segs[1..]));
      TotalOfSegRates(fees, sizes, segs);
    }
  }

  lemma TotalOfSegRates(fees: seq<int>, sizes: seq<int>, segs: seq<seq<nat>>)
    requires segs != [] && forall i :: 0 <= i < |segs| ==> C.Priced(fees, sizes, segs[i])
    ensures D.Total(SegRates(fees, sizes, segs))
         == C.SegRate(fees, sizes, segs[0]).Plus(D.Total(SegRates(fees, sizes, segs[1..])))
  {
    assert SegRates(fees, sizes, segs)[1..] == SegRates(fees, sizes, segs[1..]);
  }

  /** A prefix of a chunk is worth no more than nothing, or the whole. */
  lemma PeakOfChunk(fees: seq<int>, sizes: seq<int>, seg: seq<nat>, slope: FeeFrac)
    requires seg != [] && C.Priced(fees, sizes, seg) && D.PrefixesBelow(C.Rates(fees, sizes, seg)) && slope.size > 0
    ensures D.Peak(C.Rates(fees, sizes, seg), slope) <= Pos(Cross(C.SegRate(fees, sizes, seg), slope))
  {
    var rs := C.Rates(fees, sizes, seg);
    D.PeakIsGreatestPrefix(rs, slope, 0);
    var k :| 0 <= k <= |rs| && Cross(D.Total(rs[..k]), slope) == D.Peak(rs, slope);
    if k > 0 {
      C.PrefixAtMost(fees, sizes, seg, k);
      C.RatesPrefix(fees, sizes, seg, k);
      PartOfTotal(rs, k);
      PartOfWhole(D.Total(rs[..k]), D.Total(rs), slope);
    }
  }

  lemma PartOfTotal(rs: seq<FeeFrac>, k: nat)
    requires D.Positive(rs) && k <= |rs| && rs != []
    ensures 0 <= D.Total(rs[..k]).size <= D.Total(rs).size && D.Total(rs).size > 0
  {
    assert rs == rs[..k] + rs[k..];
    D.TotalConcat(rs[..k], rs[k..]);
    D.TotalPositive(rs[..k]);
    D.TotalPositive(rs[k..]);
    D.TotalPositive(rs);
  }

  /** No prefix of an order is worth more than its chunks gain. */
  lemma {:induction false} PeakOfChunks(fees: seq<int>, sizes: seq<int>, segs: seq<seq<nat>>, slope: FeeFrac)
    requires |fees| == |sizes| && C.Chunks(fees, sizes, segs) && slope.size > 0
    ensures C.Priced(fees, sizes, D.Flatten(segs))
    ensures D.Peak(C.Rates(fees, sizes, D.Flatten(segs)), slope) <= D.Gain(SegRates(fees, sizes, segs), slope)
  {
    if segs != [] {
      C.TailChunks(fees, sizes, segs);
      PeakOfChunks(fees, sizes, segs[1..], slope);
      C.RatesConcat(fees, sizes, segs[0], D.Flatten(segs[1..]));
      PeakOfChunk(fees, sizes, segs[0], slope);
      D.PeakConcat(C.Rates(fees, sizes, segs[0]), C.Rates(fees, sizes, D.Flatten(segs[1..])), slope);
      assert SegRates(fees, sizes, segs)[1..] == SegRates(fees, sizes, segs[1..]);
    }
  }

  /** What comes first of sorted parts gains what it is worth, along the slope of
      the next; and the rest gains nothing. */
  lemma {:induction false} GainUpTo(rs: seq<FeeFrac>, slope: FeeFrac, n: nat)
    requires n <= |rs|
    requires forall i :: 0 <= i < n ==> Cross(rs[i], slope) >= 0
    requires forall i :: n <= i < |rs| ==> Cross(rs[i], slope) <= 0
    ensures D.Gain(rs, slope) == Cross(D.Total(rs[..n]), slope)
    decreases |rs|
  {
    if rs != [] {
      if n == 0 {
        assert rs[..0] == rs[1..][..0];
        GainUpTo(rs[1..], slope, 0);
      } else {
        GainUpTo(rs[1..], slope, n - 1);
        assert rs[..n] == [rs[0]] + rs[1..][..n - 1];
        CrossPlus(rs[0], D.Total(rs[1..][..n - 1]), slope);
      }
    }
  }

  /** The first `n` chunks. */
  ghost function Front(segs: seq<seq<nat>>, n: nat): set<nat>
    requires n <= |segs|
  {
    Elements(D.Flatten(segs[..n]))
  }

  /** A linearization that is never worse than any, and its chunks, which cannot
      be split. */
  ghost predicate OptimalResult(g: Graph, order: seq<nat>, segs: seq<seq<nat>>)
    requires ValidGraph(g)
  {
    && IsLinearization(g, order) && MinimalChunksOf(g, segs, order)
    && forall other :: IsLinearization(g, other) ==> NeverWorse(g, order, other)
  }

  lemma FrontIsPrefix(segs: seq<seq<nat>>, n: nat)
    requires n <= |segs|
    ensures D.Flatten(segs) == D.Flatten(segs[..n]) + D.Flatten(segs[n..])
  {
    assert segs == segs[..n] + segs[n..];
    D.FlattenConcat(segs[..n], segs[n..]);
  }

  /** The ancestors of the `i`-th transaction come first. */
  ghost predicate AncestorsAt(g: Graph, order: seq<nat>, i: nat)
    requires ValidGraph(g) && i < |order|
  {
    order[i] in g.positions && g.ancestors[order[i]] <= Elements(order[..i + 1])
  }

  lemma FirstAt(g: Graph, order: seq<nat>, i: nat)
    requires ValidGraph(g) && AncestorsFirst(g, order) && i < |order|
    ensures AncestorsAt(g, order, i)
  {
  }

  lemma AllAt(g: Graph, order: seq<nat>)
    requires ValidGraph(g) && forall i :: 0 <= i < |order| ==> AncestorsAt(g, order, i)
    ensures AncestorsFirst(g, order)
  {
    forall i | 0 <= i < |order|
      ensures order[i] in g.positions && g.ancestors[order[i]] <= Elements(order[..i + 1])
    {
      assert AncestorsAt(g, order, i);
    }
  }

  lemma PrefixOfPrefix(order: seq<nat>, i: nat, n: nat)
    requires i <= n <= |order|
    ensures order[..n][..i] == order[..i] && Elements(order[..i]) <= Elements(order[..n])
    ensures i < n ==> order[..n][i] == order[i]
  {
    assert order[..n] == order[..i] + order[i..n];
    ElementsConcat(order[..i], order[i..n]);
  }

  lemma PrefixIsClosed(g: Graph, order: seq<nat>, n: nat)
    requires ValidGraph(g) && AncestorsFirst(g, order) && n <= |order|
    ensures Closed(g, Elements(order[..n]))
  {
    forall x | x in Elements(order[..n])
      ensures x in g.positions && g.ancestors[x] <= Elements(order[..n])
    {
      var i :| 0 <= i < n && order[..n][i] == x;
      FirstAt(g, order, i);
      PrefixOfPrefix(order, i, n);
      PrefixOfPrefix(order, i + 1, n);
    }
  }

  lemma DistinctPrefix(order: seq<nat>, n: nat)
    requires Distinct(order) && n <= |order|
    ensures Distinct(order[..n])
  {
  }

  lemma FrontIsClosed(g: Graph, order: seq<nat>, segs: seq<seq<nat>>, n: nat)
    requires ValidGraph(g) && IsLinearization(g, order) && D.Flatten(segs) == order && n <= |segs|
    ensures Closed(g, Front(segs, n)) && Distinct(D.Flatten(segs[..n]))
  {
    FrontIsPrefix(segs, n);
    var m := |D.Flatten(segs[..n])|;
    assert order[..m] == D.Flatten(segs[..n]);
    PrefixIsClosed(g, order, m);
    DistinctPrefix(order, m);
  }

  // --- closed sets can come first ---

  /** What there is of `order` in `S`, in order. */
  ghost function Those(order: seq<nat>, S: set<nat>): seq<nat> {
    if order == [] then [] else
      var n := |order| - 1;
      Those(order[..n], S) + if order[n] in S then [order[n]] else []
  }

  lemma {:induction false} ThoseElements(order: seq<nat>, S: set<nat>)
    ensures Elements(Those(order, S)) == Elements(order) * S
    decreases |order|
  {
    if order != [] {
      var n := |order| - 1;
      ThoseElements(order[..n], S);
      PrefixElements(order, n);
      assert order[..n + 1] == order;
      ElementsConcat(Those(order[..n], S), if order[n] in S then [order[n]] else []);
    }
  }

  lemma {:induction false} ThoseDistinct(order: seq<nat>, S: set<nat>)
    requires Distinct(order)
    ensures Distinct(Those(order, S))
    decreases |order|
  {
    if order != [] {
      var n := |order| - 1;
      DistinctPrefix(order, n);
      ThoseDistinct(order[..n], S);
      ThoseElements(order[..n], S);
      NotYet(order, n);
      EachIsElement(Those(order[..n], S));
    }
  }

  lemma PrefixAncestors(g: Graph, order: seq<nat>, n: nat)
    requires ValidGraph(g) && AncestorsFirst(g, order) && n <= |order|
    ensures AncestorsFirst(g, order[..n])
  {
    forall i | 0 <= i < n
      ensures AncestorsAt(g, order[..n], i)
    {
      FirstAt(g, order, i);
      PrefixOfPrefix(order, i, n);
      PrefixOfPrefix(order, i + 1, n);
    }
    AllAt(g, order[..n]);
  }

  /** In `first + Those(order, S)`, ancestors come first, if those of `S` that are
      not in it are in `first`. */
  lemma {:induction false} ThoseAncestors(g: Graph, first: seq<nat>, order: seq<nat>, S: set<nat>)
    requires ValidGraph(g) && AncestorsFirst(g, first) && AncestorsFirst(g, order) && Needed(g, S, Elements(first))
    ensures AncestorsFirst(g, first + Those(order, S))
    decreases |order|
  {
    if order == [] {
      assert first + Those(order, S) == first;
    } else {
      var n := |order| - 1;
      PrefixAncestors(g, order, n);
      ThoseAncestors(g, first, order[..n], S);
      ThoseStep(g, first, order, S);
    }
  }

  /** What the transactions of `S` need is there, or in `others`. */
  ghost predicate Needed(g: Graph, S: set<nat>, others: set<nat>)
    requires ValidGraph(g)
  {
    forall x :: x in S && x in g.positions ==> g.ancestors[x] <= S + others
  }

  lemma ThoseStep(g: Graph, first: seq<nat>, order: seq<nat>, S: set<nat>)
    requires ValidGraph(g) && order != [] && AncestorsFirst(g, order) && Needed(g, S, Elements(first))
    requires AncestorsFirst(g, first + Those(order[..|order| - 1], S))
    ensures AncestorsFirst(g, first + Those(order, S))
  {
    var n := |order| - 1;
    var before := first + Those(order[..n], S);
    ThoseNext(first, order, S);
    if order[n] in S {
      NextOfThose(g, first, order, S);
      OneMoreAncestor(g, before, order[n]);
    } else {
      assert before + [] == before;
    }
  }

  lemma ThoseNext(first: seq<nat>, order: seq<nat>, S: set<nat>)
    requires order != []
    ensures var n := |order| - 1;
            first + Those(order, S) == first + Those(order[..n], S) + if order[n] in S then [order[n]] else []
  {
  }

  lemma NextOfThose(g: Graph, first: seq<nat>, order: seq<nat>, S: set<nat>)
    requires ValidGraph(g) && AncestorsFirst(g, order) && order != [] && order[|order| - 1] in S
    requires Needed(g, S, Elements(first))
    ensures var x := order[|order| - 1];
            && x in g.positions
            && g.ancestors[x] <= Elements(first + Those(order[..|order| - 1], S)) + {x}
  {
    var n := |order| - 1;
    FirstAt(g, order, n);
    ThoseElements(order[..n], S);
    PrefixElements(order, n);
    ElementsConcat(first, Those(order[..n], S));
  }

  lemma OneMoreAncestor(g: Graph, before: seq<nat>, x: nat)
    requires ValidGraph(g) && AncestorsFirst(g, before) && x in g.positions && g.ancestors[x] <= Elements(before) + {x}
    ensures AncestorsFirst(g, before + [x])
  {
    var more := before + [x];
    forall i | 0 <= i < |more|
      ensures AncestorsAt(g, more, i)
    {
      BeforeLast(before, x, i);
      if i < |before| {
        FirstAt(g, before, i);
        BeforeLast(before, x, i + 1);
      } else {
        PrefixElements(more, i);
      }
    }
    AllAt(g, more);
  }

  /** A linearization that starts with the closed set `S`. */
  lemma ClosedFirst(g: Graph, order: seq<nat>, S: set<nat>) returns (other: seq<nat>, n: nat)
    requires ValidGraph(g) && IsLinearization(g, order) && Closed(g, S)
    ensures IsLinearization(g, other) && n <= |other| && Elements(other[..n]) == S && Distinct(other[..n])
  {
    var a, b := Those(order, S), Those(order, g.positions - S);
    other, n := a + b, |a|;
    ThoseFirst(g, order, S);
    ThoseElements(order, S);
    ThoseDistinct(order, S);
    assert other[..n] == a;
    ThoseAreAll(order, S, g.positions);
  }

  lemma ThoseAreAll(order: seq<nat>, S: set<nat>, all: set<nat>)
    requires Distinct(order) && Elements(order) == all && S <= all
    ensures Distinct(Those(order, S) + Those(order, all - S))
    ensures Elements(Those(order, S) + Those(order, all - S)) == all
  {
    var a, b := Those(order, S), Those(order, all - S);
    ThoseElements(order, S);
    ThoseElements(order, all - S);
    ThoseDistinct(order, S);
    ThoseDistinct(order, all - S);
    ElementsConcat(a, b);
    JoinedApart(a, b);
  }

  lemma ThoseFirst(g: Graph, order: seq<nat>, S: set<nat>)
    requires ValidGraph(g) && IsLinearization(g, order) && Closed(g, S)
    ensures AncestorsFirst(g, Those(order, S) + Those(order, g.positions - S))
  {
    var none: seq<nat> := [];
    assert Elements(none) == {};
    ThoseAncestors(g, none, order, S);
    assert none + Those(order, S) == Those(order, S);
    ThoseElements(order, S);
    AncestorsWithin(g);
    ThoseAncestors(g, Those(order, S), order, g.positions - S);
  }

  lemma AncestorsWithin(g: Graph)
    requires ValidGraph(g)
    ensures forall x :: x in g.positions ==> g.ancestors[x] <= g.positions
  {
  }

  lemma JoinedApart(a: seq<nat>, b: seq<nat>)
    requires Distinct(a) && Distinct(b) && Elements(a) !! Elements(b)
    ensures Distinct(a + b)
  {
    EachIsElement(a);
    EachIsElement(b);
  }

  // --- chunk ends are best ---

  lemma RateOfElements(g: Graph, seg: seq<nat>)
    requires ValidGraph(g) && Sized(g) && Distinct(seg) && Elements(seg) <= g.positions
    ensures C.Priced(g.fees, g.sizes, seg)
    ensures C.SegRate(g.fees, g.sizes, seg) == SetRate(g, Elements(seg))
  {
    ClusterOfValid(g);
    TotalIsRate(ClusterOf(g), seg);
  }

  /** An order that is never worse than any rises as high as any closed set is
      worth. */
  lemma PeakAboveClosed(g: Graph, order: seq<nat>, segs: seq<seq<nat>>, T: set<nat>, slope: FeeFrac)
    requires ValidGraph(g) && Sized(g) && OptimalResult(g, order, segs) && Closed(g, T) && slope.size > 0
    ensures C.Priced(g.fees, g.sizes, order) && Worth(g, T, slope) <= D.Peak(C.Rates(g.fees, g.sizes, order), slope)
  {
    var other, n := ClosedFirst(g, order, T);
    assert NeverWorse(g, order, other);
    RateOfElements(g, other[..n]);
    C.RatesPrefix(g.fees, g.sizes, other, n);
    D.PeakIsGreatestPrefix(C.Rates(g.fees, g.sizes, other), slope, n);
  }

  lemma FrontWorth(g: Graph, order: seq<nat>, segs: seq<seq<nat>>, n: nat, slope: FeeFrac)
    requires ValidGraph(g) && Sized(g) && IsLinearization(g, order) && D.Flatten(segs) == order && n <= |segs|
    requires forall i :: 0 <= i < |segs| ==> C.Priced(g.fees, g.sizes, segs[i])
    ensures Front(segs, n) <= g.positions
    ensures Worth(g, Front(segs, n), slope) == Cross(D.Total(SegRates(g.fees, g.sizes, segs)[..n]), slope)
  {
    FrontIsClosed(g, order, segs, n);
    RateOfElements(g, D.Flatten(segs[..n]));
    FrontRate(g.fees, g.sizes, segs, n);
  }

  lemma FirstRates(fees: seq<int>, sizes: seq<int>, segs: seq<seq<nat>>, n: nat)
    requires n <= |segs| && forall i :: 0 <= i < |segs| ==> C.Priced(fees, sizes, segs[i])
    ensures forall i :: 0 <= i < n ==> C.Priced(fees, sizes, segs[..n][i])
    ensures SegRates(fees, sizes, segs[..n]) == SegRates(fees, sizes, segs)[..n]
  {
    forall i | 0 <= i < n
      ensures segs[..n][i] == segs[i]
    {
    }
  }

  lemma FrontRate(fees: seq<int>, sizes: seq<int>, segs: seq<seq<nat>>, n: nat)
    requires |fees| == |sizes| && n <= |segs| && forall i :: 0 <= i < |segs| ==> C.Priced(fees, sizes, segs[i])
    ensures C.Priced(fees, sizes, D.Flatten(segs[..n]))
    ensures C.SegRate(fees, sizes, D.Flatten(segs[..n])) == D.Total(SegRates(fees, sizes, segs)[..n])
  {
    FirstRates(fees, sizes, segs, n);
    FlattenPriced(fees, sizes, segs[..n]);
  }

  lemma SortedAround(rs: seq<FeeFrac>, i: nat)
    requires i < |rs| && forall a, b :: 0 <= a < b < |rs| ==> Cross(rs[a], rs[b]) >= 0
    ensures forall a :: 0 <= a <= i ==> Cross(rs[a], rs[i]) >= 0
    ensures forall b :: i <= b < |rs| ==> Cross(rs[b], rs[i]) <= 0
  {
    CrossFlip(rs[i], rs[i]);
    forall b | i < b < |rs|
      ensures Cross(rs[b], rs[i]) <= 0
    {
      CrossFlip(rs[i], rs[b]);
    }
  }

  /** No closed set is worth more, along the slope of a chunk, than the chunks
      before it, and than these with the chunk. */
  lemma ChunkEndIsBest(g: Graph, order: seq<nat>, segs: seq<seq<nat>>, i: nat, n: nat)
    requires ValidGraph(g) && Sized(g) && OptimalResult(g, order, segs) && i < |segs| && i <= n <= i + 1
    ensures C.Priced(g.fees, g.sizes, segs[i]) && Best(g, Front(segs, n), C.SegRate(g.fees, g.sizes, segs[i]))
  {
    var rs, r := SegRates(g.fees, g.sizes, segs), C.SegRate(g.fees, g.sizes, segs[i]);
    SortedAround(rs, i);
    GainUpTo(rs, r, n);
    FrontWorth(g, order, segs, n, r);
    FrontIsClosed(g, order, segs, n);
    PeakOfChunks(g.fees, g.sizes, segs, r);
    forall T: set<nat> | Closed(g, T)
      ensures Worth(g, T, r) <= Worth(g, Front(segs, n), r)
    {
      PeakAboveClosed(g, order, segs, T, r);
    }
  }

  // --- the same chunks ---

  lemma FrontMore(segs: seq<seq<nat>>, i: nat)
    requires i < |segs| && Distinct(D.Flatten(segs))
    ensures Front(segs, i + 1) == Front(segs, i) + Elements(segs[i]) && Front(segs, i) !! Elements(segs[i])
    ensures Distinct(segs[i])
  {
    D.FlattenAt(segs, i);
    FlattenMore(segs, i);
    PartsApart(D.Flatten(segs[..i]), segs[i], D.Flatten(segs[i + 1..]));
  }

  lemma FlattenMore(segs: seq<seq<nat>>, i: nat)
    requires i < |segs|
    ensures D.Flatten(segs[..i + 1]) == D.Flatten(segs[..i]) + segs[i]
  {
    assert segs[..i + 1] == segs[..i] + [segs[i]];
    D.FlattenAppend(segs[..i], segs[i]);
  }

  lemma PartsApart(a: seq<nat>, b: seq<nat>, c: seq<nat>)
    requires Distinct(a + b + c)
    ensures Elements(a + b) == Elements(a) + Elements(b) && Elements(a) !! Elements(b) && Distinct(b)
  {
    var order := a + b + c;
    forall i, j | 0 <= i < |a| && 0 <= j < |b|
      ensures a[i] != b[j]
    {
      assert order[i] == a[i] && order[|a| + j] == b[j];
    }
    forall i, j | 0 <= i < j < |b|
      ensures b[i] != b[j]
    {
      assert order[|a| + i] == b[i] && order[|a| + j] == b[j];
    }
  }

  /** A chunk that cannot be split, between two sets that are best. */
  ghost predicate BetweenBest(g: Graph, segs: seq<seq<nat>>, i: nat)
    requires ValidGraph(g) && i < |segs|
  {
    var whole := Elements(segs[i]);
    && whole <= g.positions && whole != {} && Indivisible(g, whole)
    && Front(segs, i) !! whole && Front(segs, i + 1) == Front(segs, i) + whole
    && Best(g, Front(segs, i), SetRate(g, whole)) && Best(g, Front(segs, i + 1), SetRate(g, whole))
  }

  ghost predicate AllBetweenBest(g: Graph, segs: seq<seq<nat>>)
    requires ValidGraph(g)
  {
    forall i :: 0 <= i < |segs| ==> BetweenBest(g, segs, i)
  }

  lemma ChunkIsBetween(g: Graph, order: seq<nat>, segs: seq<seq<nat>>, i: nat)
    requires ValidGraph(g) && Sized(g) && OptimalResult(g, order, segs) && i < |segs|
    ensures BetweenBest(g, segs, i)
  {
    ChunkEndIsBest(g, order, segs, i, i);
    ChunkEndIsBest(g, order, segs, i, i + 1);
    FrontMore(segs, i);
    RateOfElements(g, segs[i]);
    assert segs[i][0] in Elements(segs[i]);
  }

  lemma ChunksAreBetween(g: Graph, order: seq<nat>, segs: seq<seq<nat>>)
    requires ValidGraph(g) && Sized(g) && OptimalResult(g, order, segs)
    ensures AllBetweenBest(g, segs) && Elements(D.Flatten(segs)) == g.positions
  {
    forall i | 0 <= i < |segs|
      ensures BetweenBest(g, segs, i)
    {
      ChunkIsBetween(g, order, segs, i);
    }
  }

  /** The first chunks of one result do not cut a chunk of another. */
  lemma FrontCutsNone(g: Graph, a: seq<seq<nat>>, b: seq<seq<nat>>, i: nat, n: nat)
    requires ValidGraph(g) && Sized(g) && i < |a| && n <= |b| && BetweenBest(g, a, i)
    requires n > 0 ==> BetweenBest(g, b, n - 1)
    ensures Front(b, n) * Elements(a[i]) == {} || Front(b, n) * Elements(a[i]) == Elements(a[i])
  {
    if n == 0 {
      assert b[..0] == [];
      NothingInFront(b);
    } else {
      NotCut(g, Front(b, n), SetRate(g, Elements(b[n - 1])), Front(a, i), Elements(a[i]));
    }
  }

  lemma NothingInFront(segs: seq<seq<nat>>)
    ensures Front(segs, 0) == {}
  {
    assert segs[..0] == [];
  }

  lemma {:induction false} ChunkWith(segs: seq<seq<nat>>, x: nat) returns (j: nat)
    requires x in Elements(D.Flatten(segs))
    ensures j < |segs| && x in Elements(segs[j])
  {
    if x in Elements(segs[0]) {
      j := 0;
    } else {
      assert Elements(segs[0] + D.Flatten(segs[1..])) == Elements(segs[0]) + Elements(D.Flatten(segs[1..]));
      var k := ChunkWith(segs[1..], x);
      j := k + 1;
    }
  }

  /** A chunk of one result is within any chunk of another that it meets. */
  lemma WithinOne(g: Graph, a: seq<seq<nat>>, b: seq<seq<nat>>, i: nat, j: nat, x: nat)
    requires ValidGraph(g) && Sized(g) && i < |a| && j < |b| && AllBetweenBest(g, a) && AllBetweenBest(g, b)
    requires x in Elements(a[i]) && x in Elements(b[j])
    ensures Elements(a[i]) <= Elements(b[j])
  {
    assert BetweenBest(g, a, i) && BetweenBest(g, b, j);
    if j > 0 {
      assert BetweenBest(g, b, j - 1);
    }
    FrontCutsNone(g, a, b, i, j);
    FrontCutsNone(g, a, b, i, j + 1);
    BetweenFronts(Elements(a[i]), Front(b, j), Elements(b[j]), x);
  }

  lemma BetweenFronts(whole: set<nat>, before: set<nat>, next: set<nat>, x: nat)
    requires x in whole && x in next && before !! next
    requires before * whole == {} || before * whole == whole
    requires (before + next) * whole == {} || (before + next) * whole == whole
    ensures whole <= next
  {
    assert x !in before * whole && x in (before + next) * whole;
    forall y | y in whole
      ensures y in next
    {
      assert y in (before + next) * whole && y !in before * whole;
    }
  }

  lemma SamePlace(g: Graph, a: seq<seq<nat>>, b: seq<seq<nat>>, i: nat)
    requires ValidGraph(g) && Sized(g) && i < |a| && AllBetweenBest(g, a) && AllBetweenBest(g, b)
    requires Elements(D.Flatten(b)) == g.positions
    ensures HasSet(b, Elements(a[i]))
  {
    assert BetweenBest(g, a, i);
    var x :| x in Elements(a[i]);
    var j := ChunkWith(b, x);
    WithinOne(g, a, b, i, j, x);
    WithinOne(g, b, a, j, i, x);
    assert Elements(b[j]) == Elements(a[i]);
  }

  /** Every chunk of one optimal result is a chunk of any other. */
  lemma SameChunkSets(g: Graph, a: seq<nat>, segsA: seq<seq<nat>>, b: seq<nat>, segsB: seq<seq<nat>>)
    requires ValidGraph(g) && Sized(g) && OptimalResult(g, a, segsA) && OptimalResult(g, b, segsB)
    ensures SameSets(segsA, segsB)
  {
    ChunksAreBetween(g, a, segsA);
    ChunksAreBetween(g, b, segsB);
    forall i | 0 <= i < |segsA|
      ensures HasSet(segsB, Elements(segsA[i]))
    {
      SamePlace(g, segsA, segsB, i);
    }
  }

  /** With distinct keys, there is one optimal result whose chunks, and the
      transactions of each, come in turn. */
  lemma OneOptimum(g: Graph, key: nat -> int, a: seq<nat>, segsA: seq<seq<nat>>, b: seq<nat>, segsB: seq<seq<nat>>)
    requires ValidGraph(g) && Acyclic(g) && Sized(g) && Injective(key, g.positions)
    requires OptimalResult(g, a, segsA) && OptimalResult(g, b, segsB)
    requires ValidCluster(ClusterOf(g)) && InTurn(ClusterOf(g), key, segsA) && InTurn(ClusterOf(g), key, segsB)
    ensures a == b && segsA == segsB
  {
    SameChunkSets(g, a, segsA, b, segsB);
    SameChunkSets(g, b, segsB, a, segsA);
    ParentsFirstIffAncestorsFirst(g, a);
    ParentsFirstIffAncestorsFirst(g, b);
    OneOrder(ClusterOf(g), key, segsA, segsB);
  }
}
