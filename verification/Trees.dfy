/** One chunk of the spanning forest: a tree of active dependencies, each with
    its top set, the side of the tree that holds its parent once it is cut. */
module Trees {
  import opened SetSums

  datatype Dep = Dep(parent: nat, child: nat)

  datatype Tree = Tree(txs: set<nat>, tops: map<Dep, set<nat>>)

  ghost predicate Closed(X: set<nat>, t: Tree) {
    forall d :: d in t.tops ==> (d.parent in X <==> d.child in X)
  }

  /** Only the empty set and the whole are closed under the dependencies. */
  ghost predicate Connected(t: Tree) {
    forall X: set<nat> :: X <= t.txs && X != {} && Closed(X, t) ==> X == t.txs
  }

  /** `S` is one side of the cut of `d`: it has the parent and not the child,
      and no other dependency leaves it or enters it. */
  ghost predicate IsCut(t: Tree, d: Dep, S: set<nat>) {
    && S <= t.txs && d.parent in S && d.child !in S
    && forall e :: e in t.tops && e != d ==> (e.parent in S <==> e.child in S)
  }

  ghost predicate ValidTree(t: Tree) {
    && t.txs != {}
    && (forall d :: d in t.tops ==> d.parent in t.txs && d.child in t.txs)
    && Connected(t)
    && forall d :: d in t.tops ==> IsCut(t, d, t.tops[d])
  }

  function Leaf(x: nat): Tree {
    Tree({x}, map[])
  }

  /** Top sets after `rest` is attached at `at`. */
  function Widen(tops: map<Dep, set<nat>>, at: nat, rest: set<nat>): map<Dep, set<nat>> {
    map e | e in tops :: if at in tops[e] then tops[e] + rest else tops[e]
  }

  /** Top sets of the dependencies within `side`, with `rest` cut off at `at`. */
  function Narrow(tops: map<Dep, set<nat>>, side: set<nat>, at: nat, rest: set<nat>): map<Dep, set<nat>> {
    map e | e in tops && e.parent in side :: if at in tops[e] then tops[e] - rest else tops[e]
  }

  /** Activating `d`, from `a` to `b`. */
  function Join(a: Tree, b: Tree, d: Dep): Tree {
    Tree(a.txs + b.txs,
         (Widen(a.tops, d.parent, b.txs) + Widen(b.tops, d.child, a.txs))[d := a.txs])
  }

  /** Deactivating `d`: the part with its parent, then the part with its child. */
  function Split(t: Tree, d: Dep): (Tree, Tree)
    requires d in t.tops
  {
    var top := t.tops[d];
    var bottom := t.txs - top;
    var rest := t.tops - {d};
    (Tree(top, Narrow(rest, top, d.parent, bottom)), Tree(bottom, Narrow(rest, bottom, d.child, top)))
  }

  lemma LeafValid(x: nat)
    ensures ValidTree(Leaf(x))
  {
    forall X: set<nat> | X <= {x} && X != {}
      ensures X == {x}
    {
      var y :| y in X;
    }
  }

  ghost predicate Joinable(a: Tree, b: Tree, d: Dep) {
    ValidTree(a) && ValidTree(b) && a.txs !! b.txs && d.parent in a.txs && d.child in b.txs
  }

  lemma JoinConnected(a: Tree, b: Tree, d: Dep)
    requires Joinable(a, b, d)
    ensures Connected(Join(a, b, d))
  {
    var t := Join(a, b, d);
    forall X: set<nat> | X <= t.txs && X != {} && Closed(X, t)
      ensures X == t.txs
    {
      assert d in t.tops;
      assert forall e :: e in a.tops ==> e in t.tops;
      assert forall e :: e in b.tops ==> e in t.tops;
      assert Closed(X * a.txs, a);
      assert Closed(X * b.txs, b);
      assert X == X * a.txs + X * b.txs;
    }
  }

  lemma JoinCuts(a: Tree, b: Tree, d: Dep, e: Dep)
    requires Joinable(a, b, d) && e in Join(a, b, d).tops
    ensures IsCut(Join(a, b, d), e, Join(a, b, d).tops[e])
  {
    if e in a.tops {
      assert IsCut(a, e, a.tops[e]);
    } else if e in b.tops {
      assert IsCut(b, e, b.tops[e]);
    }
  }

  lemma JoinValid(a: Tree, b: Tree, d: Dep)
    requires Joinable(a, b, d)
    ensures ValidTree(Join(a, b, d))
  {
    JoinConnected(a, b, d);
    forall e | e in Join(a, b, d).tops
      ensures IsCut(Join(a, b, d), e, Join(a, b, d).tops[e])
    {
      JoinCuts(a, b, d, e);
    }
  }

  lemma SplitConnected(t: Tree, d: Dep)
    requires ValidTree(t) && d in t.tops
    ensures Connected(Split(t, d).0) && Connected(Split(t, d).1)
  {
    var (a, b) := Split(t, d);
    assert IsCut(t, d, t.tops[d]);
    forall X: set<nat> | X <= a.txs && X != {} && Closed(X, a)
      ensures X == a.txs
    {
      assert forall e :: e in t.tops && e != d && e.parent in a.txs ==> e in a.tops;
      assert Closed(if d.parent in X then X + b.txs else X, t);
    }
    forall X: set<nat> | X <= b.txs && X != {} && Closed(X, b)
      ensures X == b.txs
    {
      assert forall e :: e in t.tops && e != d && e.parent in b.txs ==> e in b.tops;
      assert Closed(if d.child in X then X + a.txs else X, t);
    }
  }

  lemma AllOrNothing(t: Tree, X: set<nat>)
    requires Connected(t) && X <= t.txs && Closed(X, t)
    ensures X == {} || X == t.txs
  {
  }

  /** Across the cut of `d`, another top set has all of the far side or none. */
  lemma FarSide(t: Tree, d: Dep, e: Dep)
    requires ValidTree(t) && d in t.tops && e in t.tops && e != d
    ensures e.parent in t.tops[d] ==>
              if d.parent in t.tops[e] then t.txs - t.tops[d] <= t.tops[e] else t.tops[e] <= t.tops[d]
    ensures e.parent !in t.tops[d] ==>
              if d.child in t.tops[e] then t.tops[d] <= t.tops[e] else t.tops[e] !! t.tops[d]
  {
    SplitConnected(t, d);
    var (a, b) := Split(t, d);
    var S := t.tops[e];
    assert IsCut(t, d, t.tops[d]) && IsCut(t, e, S);
    assert S == S * a.txs + S * b.txs;
    if e.parent in a.txs {
      assert Closed(S * b.txs, b);
      AllOrNothing(b, S * b.txs);
      assert d.child in b.txs && (d.child in S * b.txs <==> d.parent in S);
    } else {
      assert Closed(S * a.txs, a);
      AllOrNothing(a, S * a.txs);
      assert d.parent in a.txs && (d.parent in S * a.txs <==> d.child in S);
    }
  }

  lemma SplitValid(t: Tree, d: Dep)
    requires ValidTree(t) && d in t.tops
    ensures ValidTree(Split(t, d).0) && ValidTree(Split(t, d).1)
    ensures Joinable(Split(t, d).0, Split(t, d).1, d)
    ensures Split(t, d).0.txs + Split(t, d).1.txs == t.txs
  {
    var (a, b) := Split(t, d);
    assert IsCut(t, d, t.tops[d]);
    assert d.child in b.txs;
    SplitConnected(t, d);
    forall e | e in a.tops
      ensures IsCut(a, e, a.tops[e])
    {
      assert IsCut(t, e, t.tops[e]);
      FarSide(t, d, e);
    }
    forall e | e in b.tops
      ensures IsCut(b, e, b.tops[e])
    {
      assert IsCut(t, e, t.tops[e]);
      FarSide(t, d, e);
    }
  }

  lemma WidenNarrowAt(S: set<nat>, side: set<nat>, at: nat, rest: set<nat>)
    requires side !! rest && S <= side && at in side
    ensures var S' := if at in S then S + rest else S; S == if at in S' then S' - rest else S'
  {
  }

  lemma WidenNarrow(tops: map<Dep, set<nat>>, others: map<Dep, set<nat>>, side: set<nat>, at: nat, rest: set<nat>)
    requires side !! rest && at in side
    requires forall e :: e in tops ==> e.parent in side && tops[e] <= side
    requires forall e :: e in others ==> e.parent in rest
    ensures Narrow(Widen(tops, at, rest) + others, side, at, rest) == tops
    ensures Narrow(others + Widen(tops, at, rest), side, at, rest) == tops
  {
    var w := Widen(tops, at, rest);
    assert forall e :: e in tops ==> e !in others;
    forall e | e in tops
      ensures tops[e] == if at in w[e] then w[e] - rest else w[e]
    {
      WidenNarrowAt(tops[e], side, at, rest);
    }
  }

  /** Deactivating what was just activated restores both trees. */
  lemma SplitJoin(a: Tree, b: Tree, d: Dep)
    requires Joinable(a, b, d)
    ensures d in Join(a, b, d).tops && Split(Join(a, b, d), d) == (a, b)
  {
    var wa, wb := Widen(a.tops, d.parent, b.txs), Widen(b.tops, d.child, a.txs);
    assert forall e :: e in a.tops ==> IsCut(a, e, a.tops[e]);
    assert forall e :: e in b.tops ==> IsCut(b, e, b.tops[e]);
    assert d !in wa && d !in wb;
    assert (wa + wb)[d := a.txs] - {d} == wa + wb;
    assert a.txs + b.txs - a.txs == b.txs;
    WidenNarrow(a.tops, wb, a.txs, d.parent, b.txs);
    WidenNarrow(b.tops, wa, b.txs, d.child, a.txs);
  }

  lemma NarrowWiden(tops: map<Dep, set<nat>>, side: set<nat>, at: nat, rest: set<nat>)
    requires at in side && side !! rest
    requires forall e :: e in tops && e.parent in side && at in tops[e] ==> rest <= tops[e]
    ensures Widen(Narrow(tops, side, at, rest), at, rest) == map e | e in tops && e.parent in side :: tops[e]
  {
    var n := Narrow(tops, side, at, rest);
    forall e | e in n
      ensures Widen(n, at, rest)[e] == tops[e]
    {
      assert at in tops[e] ==> tops[e] - rest + rest == tops[e];
    }
  }

  lemma Reassemble(tops: map<Dep, set<nat>>, d: Dep, a: set<nat>, b: set<nat>)
    requires d in tops
    requires forall e :: e in tops ==> (e.parent in a <==> e.parent !in b)
    ensures var rest := tops - {d};
            ((map e | e in rest && e.parent in a :: rest[e]) + (map e | e in rest && e.parent in b :: rest[e]))
            [d := tops[d]] == tops
  {
  }

  /** Activating again what was just deactivated restores the tree. */
  lemma JoinSplit(t: Tree, d: Dep)
    requires ValidTree(t) && d in t.tops
    ensures Join(Split(t, d).0, Split(t, d).1, d) == t
  {
    var a, b := t.tops[d], t.txs - t.tops[d];
    var rest := t.tops - {d};
    assert IsCut(t, d, t.tops[d]);
    assert d.child in b;
    forall e | e in rest
      ensures e.parent in a && d.parent in rest[e] ==> b <= rest[e]
      ensures e.parent in b && d.child in rest[e] ==> a <= rest[e]
    {
      FarSide(t, d, e);
    }
    NarrowWiden(rest, a, d.parent, b);
    NarrowWiden(rest, b, d.child, a);
    Reassemble(t.tops, d, a, b);
    assert a + b == t.txs;
  }

  /** No top set weighs more than zero, where the whole tree weighs zero: with
      weights above the chunk's feerate, no top set beats its chunk. */
  ghost predicate NoneBeats(t: Tree, w: seq<int>) {
    && Within(t.txs, |w|)
    && forall d :: d in t.tops ==> t.tops[d] <= t.txs && Sum(w, t.tops[d]) <= 0
  }

  /** `X` holds the parent of every active dependency whose child it holds. */
  ghost predicate UpClosed(X: set<nat>, t: Tree) {
    forall d :: d in t.tops ==> d.child in X ==> d.parent in X
  }

  /** Weights with what `rest` weighs moved onto `at`. */
  ghost function Lift(w: seq<int>, at: nat, rest: set<nat>): seq<int>
    requires at < |w| && Within(rest, |w|)
  {
    w[at := w[at] + Sum(w, rest)]
  }

  lemma LiftTop(w: seq<int>, at: nat, side: set<nat>, rest: set<nat>, S: set<nat>)
    requires Within(side + rest, |w|) && side !! rest && at in side && at < |w|
    requires if at in S then rest <= S <= side + rest else S <= side
    ensures Within(rest, |w|) && Within(S, |w|)
    ensures var S' := if at in S then S - rest else S;
            S' <= side && Sum(Lift(w, at, rest), S') == Sum(w, S)
  {
    assert forall i :: i in side || i in rest ==> i in side + rest;
    SumUpdate(w, at, Sum(w, rest), if at in S then S - rest else S);
    if at in S {
      SumSplit(w, S, rest);
    }
  }

  /** Moving the far side's weight onto the near end of the cut keeps what
      every top set weighs. */
  lemma SplitWeights(t: Tree, w: seq<int>, d: Dep)
    requires ValidTree(t) && NoneBeats(t, w) && d in t.tops
    ensures d.parent < |w| && d.child < |w|
    ensures Within(Split(t, d).0.txs, |w|) && Within(Split(t, d).1.txs, |w|)
    ensures NoneBeats(Split(t, d).0, Lift(w, d.parent, Split(t, d).1.txs))
    ensures NoneBeats(Split(t, d).1, Lift(w, d.child, Split(t, d).0.txs))
  {
    var (a, b) := Split(t, d);
    assert IsCut(t, d, t.tops[d]);
    assert d.child in b.txs && a.txs + b.txs == t.txs;
    forall e | e in a.tops
      ensures a.tops[e] <= a.txs && Sum(Lift(w, d.parent, b.txs), a.tops[e]) <= 0
    {
      FarSide(t, d, e);
      assert IsCut(t, e, t.tops[e]);
      LiftTop(w, d.parent, a.txs, b.txs, t.tops[e]);
    }
    forall e | e in b.tops
      ensures b.tops[e] <= b.txs && Sum(Lift(w, d.child, a.txs), b.tops[e]) <= 0
    {
      FarSide(t, d, e);
      assert IsCut(t, e, t.tops[e]);
      LiftTop(w, d.child, b.txs, a.txs, t.tops[e]);
    }
  }

  /** What is left of `X` in each part, and what it weighs there. */
  lemma SplitPart(t: Tree, w: seq<int>, d: Dep, X: set<nat>)
    requires ValidTree(t) && Within(t.txs, |w|) && Sum(w, t.txs) == 0 && d in t.tops
    requires Sum(w, t.tops[d]) <= 0
    requires X <= t.txs && UpClosed(X, t)
    ensures var a, b := Split(t, d).0.txs, Split(t, d).1.txs;
            && d.parent in a && d.child in b && Within(a, |w|) && Within(b, |w|)
            && Sum(Lift(w, d.parent, b), a) == 0 && Sum(Lift(w, d.child, a), b) == 0
            && Sum(w, X) <= Sum(Lift(w, d.parent, b), X * a) + Sum(Lift(w, d.child, a), X * b)
  {
    var a, b := Split(t, d).0.txs, Split(t, d).1.txs;
    assert IsCut(t, d, t.tops[d]);
    assert d.parent in a && d.child in b && a + b == t.txs;
    SumUnion(w, a, b);
    SumUpdate(w, d.parent, Sum(w, b), a);
    SumUpdate(w, d.child, Sum(w, a), b);
    SumUpdate(w, d.parent, Sum(w, b), X * a);
    SumUpdate(w, d.child, Sum(w, a), X * b);
    assert X == X * a + X * b;
    SumUnion(w, X * a, X * b);
  }

  /** The optimality certificate of one chunk: where no top set beats it, no
      part of it that is closed under its dependencies does. */
  lemma {:induction false} Certificate(t: Tree, w: seq<int>, X: set<nat>)
    requires ValidTree(t) && NoneBeats(t, w) && Sum(w, t.txs) == 0
    requires X <= t.txs && UpClosed(X, t)
    ensures Sum(w, X) <= 0
    decreases |t.txs|
  {
    if t.tops == map[] {
      assert Closed(X, t);
      AllOrNothing(t, X);
    } else {
      var d :| d in t.tops;
      var (a, b) := Split(t, d);
      SplitValid(t, d);
      SplitWeights(t, w, d);
      SplitPart(t, w, d, X);
      SmallerParts(a.txs, b.txs, t.txs);
      Certificate(a, Lift(w, d.parent, b.txs), X * a.txs);
      Certificate(b, Lift(w, d.child, a.txs), X * b.txs);
    }
  }

  lemma SmallerParts(a: set<nat>, b: set<nat>, whole: set<nat>)
    requires a != {} && b != {} && a !! b && a + b == whole
    ensures |a| < |whole| && |b| < |whole|
  {
    assert |whole| == |a| + |b|;
  }

  /** Where the cut part weighs as much as nothing, both parts still have no
      top set that beats them. */
  lemma SplitKeepsNoneBeats(t: Tree, w: seq<int>, d: Dep)
    requires ValidTree(t) && NoneBeats(t, w) && Sum(w, t.txs) == 0
    requires d in t.tops && Sum(w, t.tops[d]) == 0
    ensures NoneBeats(Split(t, d).0, w) && NoneBeats(Split(t, d).1, w)
    ensures Sum(w, Split(t, d).0.txs) == 0 && Sum(w, Split(t, d).1.txs) == 0
  {
    var a, b := Split(t, d).0.txs, Split(t, d).1.txs;
    assert IsCut(t, d, t.tops[d]);
    SplitWeights(t, w, d);
    assert a + b == t.txs;
    SumUnion(w, a, b);
    assert Lift(w, d.parent, b) == w && Lift(w, d.child, a) == w;
  }

  /** Trees that weigh nothing and have no top set that beats them still have
      none after they are joined. */
  lemma JoinKeepsNoneBeats(a: Tree, b: Tree, w: seq<int>, d: Dep)
    requires Joinable(a, b, d) && NoneBeats(a, w) && NoneBeats(b, w)
    requires Sum(w, a.txs) == 0 && Sum(w, b.txs) == 0
    ensures NoneBeats(Join(a, b, d), w) && Sum(w, Join(a, b, d).txs) == 0
  {
    var t := Join(a, b, d);
    SumUnion(w, a.txs, b.txs);
    forall e | e in t.tops
      ensures t.tops[e] <= t.txs && Sum(w, t.tops[e]) <= 0
    {
      if e != d && e in a.tops && d.parent in a.tops[e] {
        SumUnion(w, a.tops[e], b.txs);
      } else if e != d && e in b.tops && d.child in b.tops[e] {
        SumUnion(w, b.tops[e], a.txs);
      }
    }
  }
}
