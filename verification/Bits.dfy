/** Sets of positions in the order that a bitmask yields them, lowest first. */
module Bits {

  lemma {:induction false} LowestExists(s: set<nat>) returns (i: nat)
    requires s != {}
    ensures i in s && forall j :: j in s ==> i <= j
    decreases |s|
  {
    var x :| x in s;
    i := x;
    if s != {x} {
      assert s == (s - {x}) + {x};
      var y := LowestExists(s - {x});
      i := if x < y then x else y;
      assert forall j :: j in s ==> j == x || j in s - {x};
    }
  }

  lemma LowestFound(s: set<nat>)
    requires s != {}
    ensures exists i :: i in s && forall j :: j in s ==> i <= j
  {
    var i := LowestExists(s);
  }

  function Lowest(s: set<nat>): (i: nat)
    requires s != {}
    ensures i in s && forall j :: j in s ==> i <= j
  {
    LowestFound(s);
    var i :| i in s && forall j :: j in s ==> i <= j;
    i
  }

  ghost function From(s: set<nat>, i: nat): set<nat> {
    set j | j in s && i <= j
  }

  /** The first position from `i` on that is not in `s`. */
  function LowestFree(s: set<nat>, i: nat := 0): (r: nat)
    ensures r !in s && i <= r && forall j :: i <= j < r ==> j in s
    decreases |From(s, i)|
  {
    if i !in s then i else
      assert i in From(s, i) && From(s, i + 1) == From(s, i) - {i};
      LowestFree(s, i + 1)
  }

  /** The positions below `n`. */
  function FirstBits(n: nat): (s: set<nat>)
    ensures forall i: nat :: i in s <==> i < n
  {
    if n == 0 then {} else FirstBits(n - 1) + {n - 1}
  }

  /** What a loop over `all` has seen, once `x` is taken off what is left. */
  lemma SeenOneMore(all: set<nat>, todo: set<nat>, x: nat)
    requires todo <= all && x in todo
    ensures todo - {x} <= all && all - (todo - {x}) == (all - todo) + {x} && x !in all - todo
  {
  }

  lemma SeenAll(all: set<nat>)
    ensures all - {} == all && all - all == {}
  {
  }

  lemma ProperSubsetIsSmaller(a: set<nat>, b: set<nat>)
    requires a < b
    ensures |a| < |b|
  {
    assert b == a + (b - a);
  }

  /** The union of the rows at the positions of `at`. */
  method UnionOf(rows: seq<set<nat>>, at: set<nat>) returns (all: set<nat>)
    requires forall i :: i in at ==> i < |rows|
    ensures forall j :: j in all <==> exists i :: i in at && j in rows[i]
  {
    all := {};
    var todo := at;
    while todo != {}
      invariant todo <= at
      invariant forall j :: j in all <==> exists i :: i in at - todo && j in rows[i]
    {
      var i := Lowest(todo);
      todo := todo - {i};
      all := all + rows[i];
    }
  }

  /** Adds `extra` to the rows at the positions of `at`. */
  method UnionInto(rows: seq<set<nat>>, at: set<nat>, extra: set<nat>) returns (rows': seq<set<nat>>)
    requires forall i :: i in at ==> i < |rows|
    ensures |rows'| == |rows|
    ensures forall k :: 0 <= k < |rows| ==> rows'[k] == if k in at then rows[k] + extra else rows[k]
  {
    rows' := rows;
    var todo := at;
    while todo != {}
      invariant todo <= at && |rows'| == |rows|
      invariant forall k :: 0 <= k < |rows| ==> rows'[k] == if k in at - todo then rows[k] + extra else rows[k]
    {
      var i := Lowest(todo);
      todo := todo - {i};
      rows' := rows'[i := rows'[i] + extra];
    }
  }
}
