/** Sums of per-position weights over finite sets of positions. */
module SetSums {

  ghost predicate Within(S: set<nat>, n: nat) {
    forall i :: i in S ==> i < n
  }

  ghost function Sum(w: seq<int>, S: set<nat>): int
    requires Within(S, |w|)
    decreases |S|
  {
    if S == {} then 0 else
      var x :| x in S;
      w[x] + Sum(w, S - {x})
  }

  lemma {:induction false} SumRemove(w: seq<int>, S: set<nat>, x: nat)
    requires Within(S, |w|) && x in S
    ensures Sum(w, S) == w[x] + Sum(w, S - {x})
    decreases |S|
  {
    var y :| y in S && Sum(w, S) == w[y] + Sum(w, S - {y});
    if y != x {
      SumRemove(w, S - {y}, x);
      SumRemove(w, S - {x}, y);
      assert S - {y} - {x} == S - {x} - {y};
    }
  }

  lemma {:induction false} SumUnion(w: seq<int>, A: set<nat>, B: set<nat>)
    requires Within(A, |w|) && Within(B, |w|) && A !! B
    ensures Within(A + B, |w|)
    ensures Sum(w, A + B) == Sum(w, A) + Sum(w, B)
    decreases |A|
  {
    if A == {} {
      assert A + B == B;
    } else {
      var x :| x in A;
      SumRemove(w, A, x);
      SumRemove(w, A + B, x);
      assert A + B - {x} == (A - {x}) + B;
      SumUnion(w, A - {x}, B);
    }
  }

  lemma SumSplit(w: seq<int>, A: set<nat>, part: set<nat>)
    requires Within(A, |w|) && part <= A
    ensures Sum(w, A) == Sum(w, part) + Sum(w, A - part)
  {
    assert part + (A - part) == A;
    SumUnion(w, part, A - part);
  }

  lemma SumSingle(w: seq<int>, x: nat)
    requires x < |w|
    ensures Sum(w, {x}) == w[x]
  {
    SumRemove(w, {x}, x);
    assert {x} - {x} == {};
  }

  lemma {:induction false} SumCongruent(w: seq<int>, w': seq<int>, S: set<nat>)
    requires Within(S, |w|) && Within(S, |w'|)
    requires forall i :: i in S ==> w[i] == w'[i]
    ensures Sum(w, S) == Sum(w', S)
    decreases |S|
  {
    if S != {} {
      var x :| x in S;
      SumRemove(w, S, x);
      SumRemove(w', S, x);
      SumCongruent(w, w', S - {x});
    }
  }

  /** Raising one weight raises every sum over that position. */
  lemma SumUpdate(w: seq<int>, x: nat, delta: int, S: set<nat>)
    requires Within(S, |w|) && x < |w|
    ensures Sum(w[x := w[x] + delta], S) == Sum(w, S) + (if x in S then delta else 0)
  {
    var w' := w[x := w[x] + delta];
    if x in S {
      SumRemove(w, S, x);
      SumRemove(w', S, x);
      SumCongruent(w, w', S - {x});
    } else {
      SumCongruent(w, w', S);
    }
  }

  lemma {:induction false} SumPositive(w: seq<int>, S: set<nat>)
    requires Within(S, |w|)
    requires forall i :: i in S ==> w[i] > 0
    ensures Sum(w, S) >= |S|
    decreases |S|
  {
    if S != {} {
      var x :| x in S;
      SumRemove(w, S, x);
      SumPositive(w, S - {x});
    }
  }
}
