/** What the groups of one pass are like: chunks that hang together, and, where
    the cluster is a tree, nothing that could go first beats its group. */
module GroupShapes {
  import opened FeeRates
  import opened GroupLists
  import opened GroupOrders
  import opened Sequences
  import opened SetSums
  import C = Chunking
  import D = Diagrams

  /** `x` depends on `y`. */
  ghost predicate Dep(deps: seq<set<nat>>, x: nat, y: nat) {
    x < |deps| && y in deps[x]
  }

  /** A dependency between the two, either way. */
  ghost predicate Touches(deps: seq<set<nat>>, X: set<nat>, Y: set<nat>) {
    exists a, b :: a in X && b in Y && (Dep(deps, a, b) || Dep(deps, b, a))
  }

  /** No part of `txs` has no dependency with the rest. */
  ghost predicate Together(deps: seq<set<nat>>, txs: set<nat>) {
    forall X: set<nat> :: X <= txs && X != {} && X != txs ==> Touches(deps, X, txs - X)
  }

  lemma TouchesMore(deps: seq<set<nat>>, X: set<nat>, Y: set<nat>, X': set<nat>, Y': set<nat>)
    requires Touches(deps, X, Y) && X <= X' && Y <= Y'
    ensures Touches(deps, X', Y') && Touches(deps, Y', X')
  {
    var a, b :| a in X && b in Y && (Dep(deps, a, b) || Dep(deps, b, a));
    assert a in X' && b in Y';
  }

  lemma TogetherMerged(deps: seq<set<nat>>, p: set<nat>, m: set<nat>)
    requires Together(deps, p) && Together(deps, m) && p !! m && Touches(deps, p, m)
    ensures Together(deps, p + m)
  {
    forall X: set<nat> | X <= p + m && X != {} && X != p + m
      ensures Touches(deps, X, p + m - X)
    {
      PartTouches(deps, p, m, X);
    }
  }

  lemma PartTouches(deps: seq<set<nat>>, p: set<nat>, m: set<nat>, X: set<nat>)
    requires Together(deps, p) && Together(deps, m) && p !! m && Touches(deps, p, m)
    requires X <= p + m && X != {} && X != p + m
    ensures Touches(deps, X, p + m - X)
  {
    if X * p != {} && X * p != p {
      TouchesMore(deps, X * p, p - X * p, X, p + m - X);
    } else if X * m != {} && X * m != m {
      TouchesMore(deps, X * m, m - X * m, X, p + m - X);
    } else {
      assert X == X * p + X * m;
      assert X == p || X == m;
      TouchesMore(deps, p, m, p, m);
      assert p + m - X == if X == p then m else p;
    }
  }

  /** A chunk that hangs together. */
  ghost predicate Formed(v: Side, seg: seq<nat>) {
    && seg != [] && Distinct(seg) && C.Priced(v.fees, v.sizes, seg) && D.PrefixesBelow(C.Rates(v.fees, v.sizes, seg))
    && Together(v.deps, Elements(seg))
  }

  lemma OneFormed(v: Side, x: nat)
    requires C.Priced(v.fees, v.sizes, [x])
    ensures Formed(v, [x])
  {
    assert Elements([x]) == {x};
  }

  /** Transactions of positive size. */
  ghost predicate Weighs(v: Side, S: set<nat>) {
    Within(S, |v.fees|) && |v.sizes| == |v.fees| && forall x :: x in S ==> v.sizes[x] > 0
  }

  ghost function SetRate(v: Side, S: set<nat>): FeeFrac
    requires Within(S, |v.fees|) && Within(S, |v.sizes|)
  {
    FeeFrac(Sum(v.fees, S), Sum(v.sizes, S))
  }

  lemma SetRateUnion(v: Side, A: set<nat>, B: set<nat>)
    requires Within(A, |v.fees|) && Within(B, |v.fees|) && |v.sizes| == |v.fees| && A !! B
    ensures SetRate(v, A + B) == SetRate(v, A).Plus(SetRate(v, B))
  {
    SumUnion(v.fees, A, B);
    SumUnion(v.sizes, A, B);
  }

  lemma OneRate(v: Side, x: nat)
    requires C.Priced(v.fees, v.sizes, [x])
    ensures Elements([x]) == {x} && x < |v.fees| && SetRate(v, {x}) == C.SegRate(v.fees, v.sizes, [x])
  {
    assert [x][0] == x;
    SumSingle(v.fees, x);
    SumSingle(v.sizes, x);
    var r := FeeFrac(v.fees[x], v.sizes[x]);
    assert C.Rates(v.fees, v.sizes, [x]) == [r] && [r][1..] == [];
    assert D.Total([r]) == r.Plus(D.Total([]));
  }

  lemma LastIsNew(seg: seq<nat>, n: nat)
    requires Distinct(seg) && n + 1 == |seg|
    ensures seg == seg[..n] + [seg[n]] && Distinct(seg[..n]) && seg[n] !in Elements(seg[..n])
  {
  }

  lemma {:induction false} SegRateIsSetRate(v: Side, seg: seq<nat>)
    requires Distinct(seg) && C.Priced(v.fees, v.sizes, seg)
    ensures Within(Elements(seg), |v.fees|) && SetRate(v, Elements(seg)) == C.SegRate(v.fees, v.sizes, seg)
    decreases |seg|
  {
    if seg == [] {
      assert Elements(seg) == {};
    } else {
      var n := |seg| - 1;
      LastIsNew(seg, n);
      SegRateIsSetRate(v, seg[..n]);
      OneRate(v, seg[n]);
      ElementsConcat(seg[..n], [seg[n]]);
      SetRateUnion(v, Elements(seg[..n]), {seg[n]});
      C.RatesConcat(v.fees, v.sizes, seg[..n], [seg[n]]);
    }
  }

  // --- trees ---

  /** Dependencies are reflexive and transitive. */
  ghost predicate Preorder(deps: seq<set<nat>>, txs: set<nat>) {
    && (forall x :: x in txs ==> Dep(deps, x, x))
    && forall x, y, z :: x in txs && Dep(deps, x, y) && Dep(deps, y, z) ==> Dep(deps, x, z)
  }

  /** What depends on the same transaction depends on each other, one way: no
      transaction has two that need it and not each other. */
  ghost predicate Chains(deps: seq<set<nat>>, txs: set<nat>) {
    forall a, x, y :: x in txs && y in txs && Dep(deps, x, a) && Dep(deps, y, a) ==> Dep(deps, x, y) || Dep(deps, y, x)
  }

  ghost predicate TreeSide(v: Side, txs: set<nat>) {
    Preorder(v.deps, txs) && Chains(v.deps, txs) && Weighs(v, txs)
  }

  /** A part of `whole` with all that it depends on in there. */
  ghost predicate Goes(deps: seq<set<nat>>, whole: set<nat>, S: set<nat>) {
    S <= whole && forall x, y :: x in S && y in whole && Dep(deps, x, y) ==> y in S
  }

  ghost function LastOf(seg: seq<nat>): nat
    requires seg != []
  {
    seg[|seg| - 1]
  }

  /** The last transaction depends on all. */
  ghost predicate Rooted(deps: seq<set<nat>>, seg: seq<nat>) {
    seg != [] && forall y :: y in Elements(seg) ==> Dep(deps, LastOf(seg), y)
  }

  /** Without the last transaction, nothing that could go first is above `rho`. */
  ghost predicate Gathered(v: Side, seg: seq<nat>, rho: FeeFrac)
    requires seg != [] && Weighs(v, Elements(seg))
  {
    forall S: set<nat> :: Goes(v.deps, Elements(seg), S) && LastOf(seg) !in S ==> AtMost(SetRate(v, S), rho)
  }

  /** Nothing that could go first beats the group. */
  ghost predicate Best(v: Side, seg: seq<nat>)
    requires Weighs(v, Elements(seg))
  {
    forall S: set<nat> :: Goes(v.deps, Elements(seg), S) ==> AtMost(SetRate(v, S), SetRate(v, Elements(seg)))
  }

  lemma NothingWeighs(v: Side, r: FeeFrac)
    ensures Within({}, |v.fees|) && SetRate(v, {}) == FeeFrac(0, 0) && Cross(SetRate(v, {}), r) == 0
  {
  }

  lemma LastElement(seg: seq<nat>)
    requires seg != []
    ensures LastOf(seg) in Elements(seg)
  {
  }

  /** With the last transaction, everything goes. */
  lemma AllGoes(deps: seq<set<nat>>, seg: seq<nat>, S: set<nat>)
    requires Rooted(deps, seg) && Goes(deps, Elements(seg), S) && LastOf(seg) in S
    ensures S == Elements(seg)
  {
  }

  lemma SizeOfSet(v: Side, S: set<nat>)
    requires Weighs(v, S)
    ensures SetRate(v, S).size >= |S|
  {
    SumPositive(v.sizes, S);
  }

  lemma GatheredIsBest(v: Side, seg: seq<nat>, rho: FeeFrac)
    requires seg != [] && Weighs(v, Elements(seg))
    requires Rooted(v.deps, seg) && Gathered(v, seg, rho) && (rho == BOTTOM || rho.size > 0)
    requires Below(rho, SetRate(v, Elements(seg)))
    ensures Best(v, seg)
  {
    forall S: set<nat> | Goes(v.deps, Elements(seg), S)
      ensures AtMost(SetRate(v, S), SetRate(v, Elements(seg)))
    {
      if LastOf(seg) in S {
        AllGoes(v.deps, seg, S);
        CrossFlip(SetRate(v, S), SetRate(v, S));
      } else {
        GatheredPart(v, seg, rho, S);
        PartBelow(v, Elements(seg), rho, S);
      }
    }
  }

  lemma PartBelow(v: Side, whole: set<nat>, rho: FeeFrac, S: set<nat>)
    requires Weighs(v, whole) && S <= whole && whole != {} && (rho == BOTTOM || rho.size > 0)
    requires AtMost(SetRate(v, S), rho) && Below(rho, SetRate(v, whole))
    ensures AtMost(SetRate(v, S), SetRate(v, whole))
  {
    SizeOfSet(v, whole);
    RateOfSet(v, S);
    NotBoth(rho, SetRate(v, whole));
    Through(SetRate(v, S), rho, SetRate(v, whole));
  }

  lemma RateOfSet(v: Side, S: set<nat>)
    requires Weighs(v, S)
    ensures SetRate(v, S).size >= 0 && (SetRate(v, S).size == 0 ==> SetRate(v, S).fee == 0)
  {
    SizeOfSet(v, S);
    if SetRate(v, S).size == 0 {
      assert S == {};
      NothingWeighs(v, BOTTOM);
    }
  }

  lemma AtBottom(s: FeeFrac)
    requires s.size >= 0 && (s.size == 0 ==> s.fee == 0) && AtMost(s, BOTTOM)
    ensures s == FeeFrac(0, 0)
  {
  }

  lemma ZeroAtMost(r: FeeFrac)
    ensures AtMost(FeeFrac(0, 0), r)
  {
  }

  lemma Through(s: FeeFrac, rho: FeeFrac, r: FeeFrac)
    requires s.size >= 0 && (s.size == 0 ==> s.fee == 0) && r.size > 0 && (rho == BOTTOM || rho.size > 0)
    requires AtMost(s, rho) && AtMost(rho, r)
    ensures AtMost(s, r)
  {
    if rho.size > 0 {
      Chain(s, rho, r);
    } else {
      AtBottom(s);
      ZeroAtMost(r);
    }
  }

  lemma NothingElseGoes(v: Side, x: nat, S: set<nat>)
    requires Goes(v.deps, {x}, S) && x !in S
    ensures Within(S, |v.fees|) && Within(S, |v.sizes|) && AtMost(SetRate(v, S), BOTTOM)
  {
    assert S == {};
    NothingWeighs(v, BOTTOM);
  }

  lemma OneGathered(v: Side, x: nat)
    requires Weighs(v, {x}) && Dep(v.deps, x, x)
    ensures Elements([x]) == {x} && Rooted(v.deps, [x]) && Gathered(v, [x], BOTTOM) && Below(BOTTOM, SetRate(v, {x}))
  {
    SizeOfSet(v, {x});
    assert Elements([x]) == {x};
    forall S: set<nat> | Goes(v.deps, {x}, S) && x !in S
      ensures AtMost(SetRate(v, S), BOTTOM)
    {
      NothingElseGoes(v, x, S);
    }
  }

  /** What goes first of two groups together goes first of each. */
  lemma GoesApart(deps: seq<set<nat>>, p: set<nat>, m: set<nat>, S: set<nat>)
    requires p !! m && Goes(deps, p + m, S)
    ensures Goes(deps, p, S * p) && Goes(deps, m, S * m) && S == S * p + S * m
  {
  }

  lemma LastOfConcat(p: seq<nat>, m: seq<nat>)
    requires m != []
    ensures p + m != [] && LastOf(p + m) == LastOf(m)
  {
  }

  /** The moving group takes in a group that is not below the last that it took
      in. */
  lemma GatheredMore(v: Side, p: seq<nat>, m: seq<nat>, rho: FeeFrac)
    requires p != [] && m != [] && Elements(p) !! Elements(m)
    requires Weighs(v, Elements(p)) && Weighs(v, Elements(m)) && (rho == BOTTOM || rho.size > 0)
    requires Gathered(v, m, rho) && Best(v, p) && AtMost(rho, SetRate(v, Elements(p)))
    ensures Elements(p + m) == Elements(p) + Elements(m) && Weighs(v, Elements(p + m))
    ensures Gathered(v, p + m, SetRate(v, Elements(p)))
  {
    ElementsConcat(p, m);
    LastOfConcat(p, m);
    forall S: set<nat> | Goes(v.deps, Elements(p) + Elements(m), S) && LastOf(m) !in S
      ensures AtMost(SetRate(v, S), SetRate(v, Elements(p)))
    {
      PartGathered(v, p, m, rho, S);
    }
  }

  lemma GatheredPart(v: Side, m: seq<nat>, rho: FeeFrac, S: set<nat>)
    requires m != [] && Weighs(v, Elements(m)) && Gathered(v, m, rho)
    requires Goes(v.deps, Elements(m), S) && LastOf(m) !in S
    ensures AtMost(SetRate(v, S), rho)
  {
  }

  lemma BestPart(v: Side, p: seq<nat>, S: set<nat>)
    requires Weighs(v, Elements(p)) && Best(v, p) && Goes(v.deps, Elements(p), S)
    ensures AtMost(SetRate(v, S), SetRate(v, Elements(p)))
  {
  }

  lemma PartGathered(v: Side, p: seq<nat>, m: seq<nat>, rho: FeeFrac, S: set<nat>)
    requires p != [] && m != [] && Elements(p) !! Elements(m)
    requires Weighs(v, Elements(p)) && Weighs(v, Elements(m)) && (rho == BOTTOM || rho.size > 0)
    requires Gathered(v, m, rho) && Best(v, p) && AtMost(rho, SetRate(v, Elements(p)))
    requires Goes(v.deps, Elements(p) + Elements(m), S) && LastOf(m) !in S
    ensures AtMost(SetRate(v, S), SetRate(v, Elements(p)))
  {
    GoesApart(v.deps, Elements(p), Elements(m), S);
    LastElement(p);
    GatheredPart(v, m, rho, S * Elements(m));
    BestPart(v, p, S * Elements(p));
    PartsAtMost(v, Elements(p), Elements(m), rho, S);
  }

  lemma PartsAtMost(v: Side, p: set<nat>, m: set<nat>, rho: FeeFrac, S: set<nat>)
    requires p != {} && p !! m && S <= p + m && Weighs(v, p) && Weighs(v, m) && (rho == BOTTOM || rho.size > 0)
    requires AtMost(SetRate(v, S * m), rho) && AtMost(rho, SetRate(v, p))
    requires AtMost(SetRate(v, S * p), SetRate(v, p))
    ensures Within(S, |v.fees|) && AtMost(SetRate(v, S), SetRate(v, p))
  {
    SizeOfSet(v, p);
    RateOfSet(v, S * m);
    Through(SetRate(v, S * m), rho, SetRate(v, p));
    SetRateUnion(v, S * p, S * m);
    assert S == S * p + S * m;
    CrossPlus(SetRate(v, S * p), SetRate(v, S * m), SetRate(v, p));
  }

  /** In a tree, a group that depends on some of the group before it depends on
      all of it, by its last transaction. */
  lemma RootedMerged(v: Side, txs: set<nat>, p: seq<nat>, m: seq<nat>, a: nat, b: nat)
    requires TreeSide(v, txs) && Elements(p) <= txs && Elements(m) <= txs
    requires Rooted(v.deps, p) && Rooted(v.deps, m) && a in Elements(p) && b in Elements(m) && Dep(v.deps, b, a)
    requires !Dep(v.deps, LastOf(p), b)
    ensures Rooted(v.deps, p + m)
  {
    LastOfConcat(p, m);
    ElementsConcat(p, m);
    LastElement(p);
    LastElement(m);
    var last, x := LastOf(p), LastOf(m);
    assert Dep(v.deps, last, a);
    assert Dep(v.deps, b, last);
    assert Dep(v.deps, x, b);
    assert Dep(v.deps, x, last);
    forall y | y in Elements(p + m)
      ensures Dep(v.deps, x, y)
    {
      if y in Elements(p) {
        assert Dep(v.deps, last, y);
      }
    }
  }

  // --- merging ---

  lemma FormedMerged(v: Side, p: seq<nat>, m: seq<nat>)
    requires Formed(v, p) && Formed(v, m) && Elements(p) !! Elements(m) && Touches(v.deps, Elements(p), Elements(m))
    requires Cross(C.SegRate(v.fees, v.sizes, m), C.SegRate(v.fees, v.sizes, p)) > 0
    ensures Formed(v, p + m)
  {
    ElementsConcat(p, m);
    TogetherMerged(v.deps, Elements(p), Elements(m));
    C.RatesConcat(v.fees, v.sizes, p, m);
    D.PrefixesBelowConcat(C.Rates(v.fees, v.sizes, p), C.Rates(v.fees, v.sizes, m));
    DistinctConcat(p, m);
  }

  lemma DistinctConcat(p: seq<nat>, m: seq<nat>)
    requires Distinct(p) && Distinct(m) && Elements(p) !! Elements(m)
    ensures Distinct(p + m)
  {
    forall i, j | 0 <= i < |p| && 0 <= j < |m|
      ensures p[i] != m[j]
    {
      assert p[i] in Elements(p) && m[j] in Elements(m);
    }
  }

  /** A group at rest, in a tree. */
  ghost predicate TreeGroup(v: Side, seg: seq<nat>) {
    Weighs(v, Elements(seg)) && Rooted(v.deps, seg) && Best(v, seg)
  }

  /** The moving group, in a tree, after it took in one at `rho`. */
  ghost predicate TreeMoving(v: Side, seg: seq<nat>, rho: FeeFrac) {
    && Weighs(v, Elements(seg)) && Rooted(v.deps, seg) && Gathered(v, seg, rho)
    && Below(rho, SetRate(v, Elements(seg))) && (rho == BOTTOM || rho.size > 0)
  }

  lemma TreeMerged(v: Side, txs: set<nat>, p: seq<nat>, m: seq<nat>, rho: FeeFrac, a: nat, b: nat)
    requires TreeSide(v, txs) && Elements(p) <= txs && Elements(m) <= txs && Elements(p) !! Elements(m)
    requires TreeGroup(v, p) && TreeMoving(v, m, rho) && AtMost(rho, SetRate(v, Elements(p)))
    requires a in Elements(p) && b in Elements(m) && Dep(v.deps, b, a) && !Dep(v.deps, LastOf(p), b)
    requires Below(SetRate(v, Elements(p)), SetRate(v, Elements(m)))
    ensures TreeMoving(v, p + m, SetRate(v, Elements(p)))
  {
    var r, f := SetRate(v, Elements(p)), SetRate(v, Elements(m));
    RootedMerged(v, txs, p, m, a, b);
    GatheredMore(v, p, m, rho);
    SetRateUnion(v, Elements(p), Elements(m));
    LastElement(p);
    SizeOfSet(v, Elements(p));
    UpperPart(r, f);
  }

  lemma UpperPart(r: FeeFrac, f: FeeFrac)
    requires Below(r, f)
    ensures Below(r, r.Plus(f))
  {
    CrossPlus(r, f, r);
    CrossFlip(r, r);
    CrossFlip(r, f);
    CrossFlip(r, r.Plus(f));
  }

  // --- the list ---

  /** All groups are chunks that hang together, and in a tree nothing that could
      go first beats its group. */
  ghost predicate WellFormed(v: Side, txs: set<nat>, groups: seq<seq<nat>>) {
    && (forall j :: 0 <= j < |groups| ==> Formed(v, groups[j]) && Elements(groups[j]) <= txs)
    && (TreeSide(v, txs) ==> forall j :: 0 <= j < |groups| ==> TreeGroup(v, groups[j]))
  }

  /** So far, while the group `k` moves forward. */
  ghost predicate Forming(v: Side, txs: set<nat>, groups: seq<seq<nat>>, k: nat, rho: FeeFrac) {
    && k < |groups|
    && (forall j :: 0 <= j < |groups| ==> Formed(v, groups[j]) && Elements(groups[j]) <= txs)
    && (TreeSide(v, txs) ==>
          && (forall j :: 0 <= j < |groups| && j != k ==> TreeGroup(v, groups[j]))
          && TreeMoving(v, groups[k], rho))
  }

  lemma FormingStart(v: Side, txs: set<nat>, groups: seq<seq<nat>>, x: nat)
    requires WellFormed(v, txs, groups) && x in txs && C.Priced(v.fees, v.sizes, [x])
    ensures Forming(v, txs, groups + [[x]], |groups|, BOTTOM)
  {
    OneFormed(v, x);
    assert Elements([x]) == {x};
    if TreeSide(v, txs) {
      OneGathered(v, x);
    }
  }

  lemma FormingSwap(v: Side, txs: set<nat>, groups: seq<seq<nat>>, k: nat, rho: FeeFrac)
    requires Forming(v, txs, groups, k, rho) && k > 0
    ensures Forming(v, txs, SwappedGroups(groups, k), k - 1, rho)
  {
  }

  lemma FormingEnd(v: Side, txs: set<nat>, groups: seq<seq<nat>>, k: nat, rho: FeeFrac)
    requires Forming(v, txs, groups, k, rho)
    ensures WellFormed(v, txs, groups)
  {
    if TreeSide(v, txs) {
      GatheredIsBest(v, groups[k], rho);
    }
  }

  /** What is in the group before does not depend on what comes after it. */
  lemma NotBackward(deps: seq<set<nat>>, groups: seq<seq<nat>>, k: nat, i: nat, j: nat)
    requires 0 < k < |groups| && KeepsDeps(deps, D.Flatten(groups)) && i < |groups[k - 1]| && j < |groups[k]|
    ensures !Dep(deps, groups[k - 1][i], groups[k][j])
  {
    FlattenAround(groups, k);
    var x, p, m := D.Flatten(groups[..k - 1]), groups[k - 1], groups[k];
    var order := x + p + m + D.Flatten(groups[k + 1..]);
    assert order[|x| + i] == p[i] && order[|x| + |p| + j] == m[j];
  }

  lemma GroupsDisjoint(groups: seq<seq<nat>>, j: nat, k: nat)
    requires Apart(groups) && j < |groups| && k < |groups| && j != k
    ensures Elements(groups[j]) !! Elements(groups[k])
  {
    forall x | x in Elements(groups[j])
      ensures x !in Elements(groups[k])
    {
      var i :| 0 <= i < |groups[j]| && groups[j][i] == x;
      forall i' | 0 <= i' < |groups[k]|
        ensures groups[k][i'] != x
      {
        NotTwice(groups, j, i, k, i');
      }
    }
  }

  /** What merging the group `k` with the one before it needs. */
  ghost predicate MayMerge(v: Side, txs: set<nat>, groups: seq<seq<nat>>, k: nat, rho: FeeFrac, a: nat, b: nat) {
    && Forming(v, txs, groups, k, rho) && k > 0 && Elements(groups[k - 1]) !! Elements(groups[k])
    && a in Elements(groups[k - 1]) && b in Elements(groups[k]) && Dep(v.deps, b, a)
    && !Dep(v.deps, LastOf(groups[k - 1]), b)
    && Cross(C.SegRate(v.fees, v.sizes, groups[k]), C.SegRate(v.fees, v.sizes, groups[k - 1])) > 0
    && AtMost(rho, C.SegRate(v.fees, v.sizes, groups[k - 1]))
  }

  lemma FormingPair(v: Side, txs: set<nat>, groups: seq<seq<nat>>, k: nat, rho: FeeFrac, a: nat, b: nat)
    requires MayMerge(v, txs, groups, k, rho, a, b)
    ensures Formed(v, groups[k - 1] + groups[k]) && Elements(groups[k - 1] + groups[k]) <= txs
    ensures TreeSide(v, txs) ==>
              TreeMoving(v, groups[k - 1] + groups[k], C.SegRate(v.fees, v.sizes, groups[k - 1]))
  {
    var p, m := groups[k - 1], groups[k];
    ElementsConcat(p, m);
    assert Touches(v.deps, Elements(p), Elements(m));
    FormedMerged(v, p, m);
    SegRateIsSetRate(v, p);
    SegRateIsSetRate(v, m);
    if TreeSide(v, txs) {
      CrossFlip(SetRate(v, Elements(p)), SetRate(v, Elements(m)));
      TreeMerged(v, txs, p, m, rho, a, b);
    }
  }

  lemma FormingMerge(v: Side, txs: set<nat>, groups: seq<seq<nat>>, k: nat, rho: FeeFrac, a: nat, b: nat)
    requires MayMerge(v, txs, groups, k, rho, a, b)
    ensures Forming(v, txs, MergedGroups(groups, k), k - 1, C.SegRate(v.fees, v.sizes, groups[k - 1]))
  {
    FormingPair(v, txs, groups, k, rho, a, b);
    var more := MergedGroups(groups, k);
    forall j | 0 <= j < |more|
      ensures j == k - 1 ==> more[j] == groups[k - 1] + groups[k]
      ensures j != k - 1 ==> more[j] == groups[if j < k - 1 then j else j + 1]
    {
    }
  }
}
