/** Clusters that are trees: there, the order of the groups of the pass that
    faces the root is as good as any. */
module TreeOrders {
  import opened ClusterGraphs
  import opened DepGraphs
  import opened FeeRates
  import opened GroupLists
  import opened GroupOrders
  import opened GroupShapes
  import opened Sequences
  import C = Chunking
  import D = Diagrams

  /** What a pass reads: upside down for the one from back to front. */
  ghost function SideOf(g: Graph, rev: bool): (v: Side)
    requires SameLength(g)
    ensures |v.fees| == |g.fees| && |v.deps| == |g.fees| && |v.sizes| == |g.fees|
  {
    Side(if rev then g.descendants else g.ancestors,
         if rev then seq(|g.fees|, i requires 0 <= i < |g.fees| => -g.fees[i]) else g.fees,
         g.sizes)
  }

  /** No transaction has two children. */
  ghost predicate OneChild(g: Graph)
    requires ValidGraph(g)
  {
    forall p, c, d :: c in g.positions && d in g.positions && p in Parents(g, c) && p in Parents(g, d) ==> c == d
  }

  /** No transaction has two parents. */
  ghost predicate OneParent(g: Graph)
    requires ValidGraph(g)
  {
    forall p, q, c :: c in g.positions && p in Parents(g, c) && q in Parents(g, c) ==> p == q
  }

  /** A child of `a` on the way to `x`. */
  lemma {:induction false} ChildToward(g: Graph, a: nat, x: nat) returns (c: nat)
    requires ValidGraph(g) && Acyclic(g) && x in g.positions && a in g.ancestors[x] && a != x
    ensures c in g.positions && a in Parents(g, c) && c in g.ancestors[x]
    decreases |g.ancestors[x]|
  {
    var p := ParentsCover(g, x, a);
    if p == a {
      c := x;
    } else {
      StrictlyFewer(g, x, p);
      c := ChildToward(g, a, p);
    }
  }

  /** Where no transaction has two children, all descendants of one are in a
      line. */
  lemma {:induction false} DescendantsInLine(g: Graph, a: nat, x: nat, y: nat)
    requires ValidGraph(g) && Acyclic(g) && OneChild(g) && x in g.positions && y in g.positions
    requires a in g.ancestors[x] && a in g.ancestors[y]
    ensures y in g.ancestors[x] || x in g.ancestors[y]
    decreases |g.ancestors[x]| - |g.ancestors[a]|
  {
    if a != x && a != y {
      var c := ChildToward(g, a, x);
      var d := ChildToward(g, a, y);
      StrictlyFewer(g, c, a);
      assert g.ancestors[c] <= g.ancestors[x];
      FewerIn(g.ancestors[c], g.ancestors[x]);
      DescendantsInLine(g, c, x, y);
    }
  }

  lemma FewerIn(a: set<nat>, b: set<nat>)
    requires a <= b
    ensures |a| <= |b|
  {
    assert b == a + (b - a);
  }

  /** Where no transaction has two parents, all ancestors of one are in a line. */
  lemma {:induction false} AncestorsInLine(g: Graph, a: nat, x: nat, y: nat)
    requires ValidGraph(g) && Acyclic(g) && OneParent(g) && a in g.positions
    requires x in g.ancestors[a] && y in g.ancestors[a]
    ensures y in g.ancestors[x] || x in g.ancestors[y]
    decreases |g.ancestors[a]|
  {
    if x != a && y != a {
      var p := ParentsCover(g, a, x);
      var q := ParentsCover(g, a, y);
      StrictlyFewer(g, a, p);
      AncestorsInLine(g, p, x, y);
    }
  }

  /** A tree, with its root at the end that the pass faces. */
  ghost predicate TreeFacing(g: Graph, rev: bool)
    requires ValidGraph(g)
  {
    Acyclic(g) && if rev then OneParent(g) else OneChild(g)
  }

  lemma SidePreorder(g: Graph, rev: bool, txs: set<nat>)
    requires ValidGraph(g) && txs <= g.positions
    ensures Preorder(SideOf(g, rev).deps, txs)
  {
    var deps := SideOf(g, rev).deps;
    forall x: nat, y: nat, z: nat | x in txs && Dep(deps, x, y) && Dep(deps, y, z)
      ensures Dep(deps, x, z)
    {
      if rev {
        assert x in g.ancestors[y] && y in g.ancestors[z] && g.ancestors[y] <= g.ancestors[z];
      } else {
        assert g.ancestors[y] <= g.ancestors[x];
      }
    }
  }

  lemma SideChains(g: Graph, rev: bool, txs: set<nat>)
    requires ValidGraph(g) && txs <= g.positions && TreeFacing(g, rev)
    ensures Chains(SideOf(g, rev).deps, txs)
  {
    var deps := SideOf(g, rev).deps;
    forall a: nat, x: nat, y: nat | x in txs && y in txs && Dep(deps, x, a) && Dep(deps, y, a)
      ensures Dep(deps, x, y) || Dep(deps, y, x)
    {
      if rev {
        assert x in g.ancestors[a] && y in g.ancestors[a];
        AncestorsInLine(g, a, x, y);
      } else {
        DescendantsInLine(g, a, x, y);
      }
    }
  }

  lemma TreeIsTreeSide(g: Graph, rev: bool, txs: set<nat>)
    requires ValidGraph(g) && Sized(g) && txs <= g.positions && TreeFacing(g, rev)
    ensures TreeSide(SideOf(g, rev), txs)
  {
    SidePreorder(g, rev, txs);
    SideChains(g, rev, txs);
  }

  // --- no order is better ---

  /** What is cut off an order in front goes first of every group. */
  lemma PrefixGoes(deps: seq<set<nat>>, order: seq<nat>, n: nat, whole: set<nat>)
    requires KeepsDeps(deps, order) && n <= |order| && whole <= Elements(order)
    ensures Goes(deps, whole, Elements(order[..n]) * whole)
  {
    var X := Elements(order[..n]);
    forall x, y | x in X * whole && y in whole && Dep(deps, x, y)
      ensures y in X
    {
      var i :| 0 <= i < n && order[..n][i] == x;
      var j :| 0 <= j < |order| && order[j] == y;
      assert order[i] == x && j < n ==> order[..n][j] == y;
    }
  }

  lemma ShareOfGroup(v: Side, seg: seq<nat>, X: set<nat>, slope: FeeFrac)
    requires seg != [] && TreeGroup(v, seg) && Goes(v.deps, Elements(seg), X * Elements(seg)) && slope.size > 0
    ensures Cross(SetRate(v, X * Elements(seg)), slope) <= Pos(Cross(SetRate(v, Elements(seg)), slope))
  {
    BestPart(v, seg, X * Elements(seg));
    LastElement(seg);
    SizeOfPart(v, X * Elements(seg), Elements(seg));
    PartOfWhole(SetRate(v, X * Elements(seg)), SetRate(v, Elements(seg)), slope);
  }

  lemma SizeOfPart(v: Side, part: set<nat>, whole: set<nat>)
    requires Weighs(v, whole) && part <= whole && whole != {}
    ensures 0 <= SetRate(v, part).size <= SetRate(v, whole).size && SetRate(v, whole).size > 0
  {
    SizeOfSet(v, whole);
    SizeOfSet(v, part);
    SizeOfSet(v, whole - part);
    SetRateUnion(v, part, whole - part);
    assert part + (whole - part) == whole;
  }

  /** Groups of a tree, none of which has a transaction of another. */
  ghost predicate TreeGroups(v: Side, groups: seq<seq<nat>>) {
    && (forall j :: 0 <= j < |groups| ==>
          groups[j] != [] && Distinct(groups[j]) && C.Priced(v.fees, v.sizes, groups[j]) && TreeGroup(v, groups[j]))
    && forall i, j :: 0 <= i < j < |groups| ==> Elements(groups[i]) !! Elements(groups[j])
  }

  lemma FirstApart(v: Side, groups: seq<seq<nat>>)
    requires TreeGroups(v, groups) && groups != []
    ensures TreeGroups(v, groups[1..]) && Elements(groups[0]) !! Elements(D.Flatten(groups[1..]))
    ensures Elements(D.Flatten(groups)) == Elements(groups[0]) + Elements(D.Flatten(groups[1..]))
  {
    ElementsConcat(groups[0], D.Flatten(groups[1..]));
    forall x | x in Elements(D.Flatten(groups[1..]))
      ensures x !in Elements(groups[0])
    {
      InFlat(groups[1..], x);
      var j, i :| 0 <= j < |groups[1..]| && 0 <= i < |groups[1..][j]| && groups[1..][j][i] == x;
      assert x in Elements(groups[j + 1]);
    }
  }

  lemma {:induction false} SharesOfGroups(v: Side, groups: seq<seq<nat>>, X: set<nat>, slope: FeeFrac)
    requires TreeGroups(v, groups) && slope.size > 0
    requires forall j :: 0 <= j < |groups| ==> Goes(v.deps, Elements(groups[j]), X * Elements(groups[j]))
    ensures Weighs(v, X * Elements(D.Flatten(groups))) || groups == []
    ensures groups != [] ==>
              Cross(SetRate(v, X * Elements(D.Flatten(groups))), slope) <= D.Gain(GroupRates(v, groups), slope)
    decreases |groups|
  {
    if groups != [] {
      var first, rest := groups[0], groups[1..];
      FirstApart(v, groups);
      SharesOfGroups(v, rest, X, slope);
      ShareOfGroup(v, first, X, slope);
      SegRateIsSetRate(v, first);
      assert GroupRates(v, groups)[1..] == GroupRates(v, rest);
      if rest == [] {
        assert X * Elements(D.Flatten(groups)) == X * Elements(first);
      } else {
        ShareUnion(v, X, Elements(first), Elements(D.Flatten(rest)), slope);
      }
    }
  }

  lemma ShareUnion(v: Side, X: set<nat>, A: set<nat>, B: set<nat>, slope: FeeFrac)
    requires A !! B && Weighs(v, X * A) && Weighs(v, X * B)
    ensures Weighs(v, X * (A + B))
    ensures Cross(SetRate(v, X * (A + B)), slope) == Cross(SetRate(v, X * A), slope) + Cross(SetRate(v, X * B), slope)
  {
    assert X * (A + B) == X * A + X * B;
    UnionWeighs(v, X * A, X * B, slope);
  }

  lemma UnionWeighs(v: Side, A: set<nat>, B: set<nat>, slope: FeeFrac)
    requires A !! B && Weighs(v, A) && Weighs(v, B)
    ensures Weighs(v, A + B)
    ensures Cross(SetRate(v, A + B), slope) == Cross(SetRate(v, A), slope) + Cross(SetRate(v, B), slope)
  {
    SetRateUnion(v, A, B);
    CrossOfSum(SetRate(v, A + B), SetRate(v, A), SetRate(v, B), slope);
  }

  lemma CrossOfSum(c: FeeFrac, a: FeeFrac, b: FeeFrac, slope: FeeFrac)
    requires c == a.Plus(b)
    ensures Cross(c, slope) == Cross(a, slope) + Cross(b, slope)
  {
    CrossPlus(a, b, slope);
  }

  /** No order that keeps the dependencies rises higher than the groups, one
      after another. */
  lemma NoOrderAbove(v: Side, groups: seq<seq<nat>>, other: seq<nat>, slope: FeeFrac)
    requires TreeGroups(v, groups) && groups != [] && D.Sorted(GroupRates(v, groups)) && slope.size > 0
    requires Distinct(other) && Elements(other) == Elements(D.Flatten(groups)) && KeepsDeps(v.deps, other)
    requires C.Priced(v.fees, v.sizes, other)
    ensures C.Priced(v.fees, v.sizes, D.Flatten(groups))
    ensures D.Peak(C.Rates(v.fees, v.sizes, other), slope) <= D.Peak(C.Rates(v.fees, v.sizes, D.Flatten(groups)), slope)
  {
    var rs := C.Rates(v.fees, v.sizes, other);
    D.PeakIsGreatestPrefix(rs, slope, 0);
    var n :| 0 <= n <= |rs| && Cross(D.Total(rs[..n]), slope) == D.Peak(rs, slope);
    PrefixBelowGroups(v, groups, other, n, slope);
    var parts := PartsOfGroups(v, groups);
    D.PeakOfParts(parts, slope);
    RatesPositive(v, groups);
    D.SortedPeak(GroupRates(v, groups), slope);
  }

  lemma RatesPositive(v: Side, groups: seq<seq<nat>>)
    requires TreeGroups(v, groups)
    ensures D.Positive(GroupRates(v, groups))
  {
    forall j | 0 <= j < |groups|
      ensures D.Total(C.Rates(v.fees, v.sizes, groups[j])).size > 0
    {
      D.TotalPositive(C.Rates(v.fees, v.sizes, groups[j]));
    }
  }

  lemma PrefixBelowGroups(v: Side, groups: seq<seq<nat>>, other: seq<nat>, n: nat, slope: FeeFrac)
    requires TreeGroups(v, groups) && groups != [] && slope.size > 0
    requires Distinct(other) && Elements(other) == Elements(D.Flatten(groups)) && KeepsDeps(v.deps, other)
    requires C.Priced(v.fees, v.sizes, other) && n <= |other|
    ensures Cross(D.Total(C.Rates(v.fees, v.sizes, other)[..n]), slope) <= D.Gain(GroupRates(v, groups), slope)
  {
    var X := Elements(other[..n]);
    C.RatesPrefix(v.fees, v.sizes, other, n);
    SegRateIsSetRate(v, other[..n]);
    forall j | 0 <= j < |groups|
      ensures Goes(v.deps, Elements(groups[j]), X * Elements(groups[j]))
    {
      WithinFlat(groups, j);
      PrefixGoes(v.deps, other, n, Elements(groups[j]));
    }
    SharesOfGroups(v, groups, X, slope);
    assert X <= Elements(other) by {
      assert forall i :: 0 <= i < n ==> other[..n][i] == other[i];
    }
    assert X * Elements(D.Flatten(groups)) == X;
  }

  lemma WithinFlat(groups: seq<seq<nat>>, j: nat)
    requires j < |groups|
    ensures Elements(groups[j]) <= Elements(D.Flatten(groups))
  {
    forall x | x in Elements(groups[j])
      ensures x in D.Flatten(groups)
    {
      InFlat(groups, x);
    }
  }
}
