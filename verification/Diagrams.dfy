/** Feerate diagrams, and two ways to say that one is above another: at every
    size, and along every slope. */
module Diagrams {
  import opened FeeRates
  import Sequences

  ghost predicate Positive(rs: seq<FeeFrac>) {
    forall i :: 0 <= i < |rs| ==> rs[i].size > 0
  }

  /** Feerates never increase. */
  ghost predicate Sorted(rs: seq<FeeFrac>) {
    forall i, j :: 0 <= i < j < |rs| ==> Cross(rs[i], rs[j]) >= 0
  }

  ghost function Total(rs: seq<FeeFrac>): FeeFrac {
    if rs == [] then FeeFrac(0, 0) else rs[0].Plus(Total(rs[1..]))
  }

  /** The most that a prefix rises above the line of slope `slope`. */
  ghost function Peak(rs: seq<FeeFrac>, slope: FeeFrac): (r: int)
    ensures r >= 0
  {
    if rs == [] then 0 else Pos(Cross(rs[0], slope) + Peak(rs[1..], slope))
  }

  /** The same, were the parts free to be put in any order. */
  ghost function Gain(rs: seq<FeeFrac>, slope: FeeFrac): (r: int)
    ensures r >= 0
  {
    if rs == [] then 0 else Pos(Cross(rs[0], slope)) + Gain(rs[1..], slope)
  }

  lemma {:induction false} TotalConcat(a: seq<FeeFrac>, b: seq<FeeFrac>)
    ensures Total(a + b) == Total(a).Plus(Total(b))
  {
    if a == [] {
      assert a + b == b;
    } else {
      assert (a + b)[1..] == a[1..] + b;
      TotalConcat(a[1..], b);
      PlusAssociates(a[0], Total(a[1..]), Total(b));
    }
  }

  lemma {:induction false} TotalPositive(rs: seq<FeeFrac>)
    requires Positive(rs)
    ensures Total(rs).size >= |rs|
  {
    if rs != [] {
      TotalPositive(rs[1..]);
    }
  }

  lemma {:induction false} GainConcat(a: seq<FeeFrac>, b: seq<FeeFrac>, slope: FeeFrac)
    ensures Gain(a + b, slope) == Gain(a, slope) + Gain(b, slope)
  {
    if a == [] {
      assert a + b == b;
    } else {
      GainConcat(a[1..], b, slope);
      assert (a + b)[1..] == a[1..] + b;
    }
  }

  lemma GainSingle(r: FeeFrac, slope: FeeFrac)
    ensures Gain([r], slope) == Pos(Cross(r, slope))
  {
    assert [r][1..] == [];
  }

  lemma {:induction false} PeakConcat(a: seq<FeeFrac>, b: seq<FeeFrac>, slope: FeeFrac)
    ensures Peak(a + b, slope)
         == if Peak(a, slope) >= Cross(Total(a), slope) + Peak(b, slope) then Peak(a, slope)
            else Cross(Total(a), slope) + Peak(b, slope)
  {
    if a == [] {
      assert a + b == b;
    } else {
      PeakConcat(a[1..], b, slope);
      assert (a + b)[1..] == a[1..] + b;
      CrossPlus(a[0], Total(a[1..]), slope);
    }
  }

  /** `Peak` is the greatest height of a prefix, and is reached by one. */
  lemma {:induction false} PeakIsGreatestPrefix(rs: seq<FeeFrac>, slope: FeeFrac, n: nat)
    requires n <= |rs|
    ensures Cross(Total(rs[..n]), slope) <= Peak(rs, slope)
    ensures exists k :: 0 <= k <= |rs| && Cross(Total(rs[..k]), slope) == Peak(rs, slope)
    decreases |rs|
  {
    if rs == [] {
      assert rs[..0] == rs;
    } else {
      var tail := rs[1..];
      PeakIsGreatestPrefix(tail, slope, if n == 0 then 0 else n - 1);
      forall k | 0 < k <= |rs|
        ensures Cross(Total(rs[..k]), slope) == Cross(rs[0], slope) + Cross(Total(tail[..k - 1]), slope)
      {
        assert rs[..k][1..] == tail[..k - 1];
        CrossPlus(rs[0], Total(tail[..k - 1]), slope);
      }
      var k :| 0 <= k <= |tail| && Cross(Total(tail[..k]), slope) == Peak(tail, slope);
      var best := if Cross(rs[0], slope) + Peak(tail, slope) > 0 then k + 1 else 0;
      assert Cross(Total(rs[..best]), slope) == Peak(rs, slope);
    }
  }

  /** Best first, no other order of the parts rises higher. */
  lemma {:induction false} SortedPeak(rs: seq<FeeFrac>, slope: FeeFrac)
    requires Positive(rs) && Sorted(rs) && slope.size > 0
    ensures Peak(rs, slope) == Gain(rs, slope)
  {
    if rs != [] {
      SortedPeak(rs[1..], slope);
      if Cross(rs[0], slope) <= 0 {
        NothingBelow(rs[0], rs[1..], slope);
      }
    }
  }

  lemma {:induction false} NothingBelow(bound: FeeFrac, rs: seq<FeeFrac>, slope: FeeFrac)
    requires Positive(rs) && bound.size > 0 && slope.size > 0
    requires forall i :: 0 <= i < |rs| ==> Cross(bound, rs[i]) >= 0
    requires Cross(bound, slope) <= 0
    ensures Gain(rs, slope) == 0
  {
    if rs != [] {
      CrossPlus(slope, rs[0], bound);
      CrossTrans(slope, bound, rs[0]);
      CrossPlus(slope, bound, rs[0]);
      NothingBelow(bound, rs[1..], slope);
    }
  }

  /** The height of the diagram at size `x`, flat after its end. */
  ghost function Height(rs: seq<FeeFrac>, x: real): real
    requires Positive(rs)
  {
    if rs == [] then 0.0
    else if x <= rs[0].size as real then rs[0].fee as real * (x / rs[0].size as real)
    else rs[0].fee as real + Height(rs[1..], x - rs[0].size as real)
  }

  /** How far `y` at size `x` is above the line of slope `slope` through 0. */
  ghost function Over(y: real, x: real, slope: FeeFrac): real {
    slope.size as real * y - slope.fee as real * x
  }

  lemma ShareOfPart(r: FeeFrac, x: real, slope: FeeFrac)
    requires r.size > 0 && 0.0 <= x <= r.size as real
    ensures var share := x / r.size as real;
            && 0.0 <= share <= 1.0
            && Over(r.fee as real * share, x, slope) == Cross(r, slope) as real * share
  {
    var share, fee, size := x / r.size as real, r.fee as real, r.size as real;
    assert share * size == x;
    var p, q := slope.fee as real, slope.size as real;
    assert Cross(r, slope) as real == fee * q - p * size;
    assert p * x == p * size * share;
    assert q * (fee * share) == fee * q * share;
  }

  lemma OverPlus(a: FeeFrac, y: real, x: real, slope: FeeFrac)
    ensures Over(a.fee as real + y, a.size as real + x, slope) == Cross(a, slope) as real + Over(y, x, slope)
  {
    var p, q := slope.fee as real, slope.size as real;
    assert Cross(a, slope) as real == a.fee as real * q - p * a.size as real;
  }

  /** No point of a diagram is further above a line than its gain. */
  lemma {:induction false} OverAtMostGain(rs: seq<FeeFrac>, x: real, slope: FeeFrac)
    requires Positive(rs) && 0.0 <= x <= Total(rs).size as real
    ensures Over(Height(rs, x), x, slope) <= Gain(rs, slope) as real
  {
    if rs != [] {
      var c := Cross(rs[0], slope) as real;
      if x <= rs[0].size as real {
        ShareOfPart(rs[0], x, slope);
        var share := x / rs[0].size as real;
        assert c * share <= Pos(Cross(rs[0], slope)) as real;
      } else {
        var x' := x - rs[0].size as real;
        OverAtMostGain(rs[1..], x', slope);
        OverPlus(rs[0], Height(rs[1..], x'), x', slope);
      }
    }
  }

  /** Where feerates never increase, each point lies on a line that the
      diagram does not cross: the one with the feerate of its part. */
  lemma {:induction false} SupportingLine(rs: seq<FeeFrac>, x: real) returns (slope: FeeFrac)
    requires Positive(rs) && Sorted(rs) && rs != [] && 0.0 <= x <= Total(rs).size as real
    ensures slope in rs && slope.size > 0
    ensures Over(Height(rs, x), x, slope) == Gain(rs, slope) as real
  {
    if x <= rs[0].size as real {
      slope := rs[0];
      CrossPlus(slope, slope, slope);
      ShareOfPart(rs[0], x, slope);
      NothingBelow(slope, rs[1..], slope);
    } else {
      var x' := x - rs[0].size as real;
      slope := SupportingLine(rs[1..], x');
      OverPlus(rs[0], Height(rs[1..], x'), x', slope);
      assert Cross(rs[0], slope) >= 0;
    }
  }

  lemma HeightBeyond(rs: seq<FeeFrac>, x: real)
    requires Positive(rs) && rs != [] && x >= 0.0
    ensures Height(rs, x + rs[0].size as real) == rs[0].fee as real + Height(rs[1..], x)
  {
    HeightAtZero(rs[1..]);
    if x == 0.0 {
      assert (x + rs[0].size as real) / rs[0].size as real == 1.0;
    }
  }

  /** A sorted diagram reaches its gain along every slope. */
  lemma {:induction false} GainIsReached(rs: seq<FeeFrac>, slope: FeeFrac) returns (x: real)
    requires Positive(rs) && Sorted(rs) && slope.size > 0
    ensures 0.0 <= x <= Total(rs).size as real
    ensures Over(Height(rs, x), x, slope) == Gain(rs, slope) as real
  {
    TotalPositive(rs);
    x := 0.0;
    HeightAtZero(rs);
    if rs != [] && Cross(rs[0], slope) <= 0 {
      NothingBelow(rs[0], rs[1..], slope);
    } else if rs != [] {
      var x' := GainIsReached(rs[1..], slope);
      x := x' + rs[0].size as real;
      HeightBeyond(rs, x');
      OverPlus(rs[0], Height(rs[1..], x'), x', slope);
    }
  }

  lemma HeightAtZero(rs: seq<FeeFrac>)
    requires Positive(rs)
    ensures Height(rs, 0.0) == 0.0
  {
  }

  lemma {:induction false} FlatAfterEnd(rs: seq<FeeFrac>, x: real)
    requires Positive(rs) && x >= Total(rs).size as real
    ensures Height(rs, x) == Total(rs).fee as real
  {
    if rs != [] {
      TotalPositive(rs[1..]);
      if x <= rs[0].size as real {
        assert rs[1..] == [];
        assert x / rs[0].size as real == 1.0;
      } else {
        FlatAfterEnd(rs[1..], x - rs[0].size as real);
      }
    }
  }

  /** `a` is nowhere below `b`. */
  ghost predicate Above(a: seq<FeeFrac>, b: seq<FeeFrac>)
    requires Positive(a) && Positive(b)
  {
    forall x: real :: x >= 0.0 ==> Height(a, x) >= Height(b, x)
  }

  /** `a` gains at least what `b` does along every slope. */
  ghost predicate Dominates(a: seq<FeeFrac>, b: seq<FeeFrac>) {
    forall slope: FeeFrac :: slope.size > 0 ==> Gain(a, slope) >= Gain(b, slope)
  }

  /** Along one line, the higher of two points at one size is further above. */
  lemma OverIsMonotone(y: real, y': real, x: real, slope: FeeFrac)
    requires slope.size > 0
    ensures y >= y' <==> Over(y, x, slope) >= Over(y', x, slope)
  {
    var q := slope.size as real;
    assert q * y - q * y' == q * (y - y');
  }

  lemma AboveAt(a: seq<FeeFrac>, b: seq<FeeFrac>, x: real)
    requires Positive(a) && Positive(b) && Sorted(a) && Total(a) == Total(b)
    requires Dominates(a, b) && x >= 0.0
    ensures Height(a, x) >= Height(b, x)
  {
    TotalPositive(a);
    TotalPositive(b);
    if x >= Total(a).size as real {
      FlatAfterEnd(a, x);
      FlatAfterEnd(b, x);
    } else {
      var slope := SupportingLine(a, x);
      OverAtMostGain(b, x, slope);
      OverIsMonotone(Height(a, x), Height(b, x), x, slope);
    }
  }

  /** For two sorted diagrams with the same end, to be above at every size is
      to gain at least as much along every slope. */
  lemma AboveIffDominates(a: seq<FeeFrac>, b: seq<FeeFrac>)
    requires Positive(a) && Positive(b) && Sorted(a) && Sorted(b) && Total(a) == Total(b)
    ensures Above(a, b) <==> Dominates(a, b)
  {
    if Dominates(a, b) {
      forall x: real | x >= 0.0
        ensures Height(a, x) >= Height(b, x)
      {
        AboveAt(a, b, x);
      }
    }
    if Above(a, b) {
      forall slope: FeeFrac | slope.size > 0
        ensures Gain(a, slope) >= Gain(b, slope)
      {
        var x := GainIsReached(b, slope);
        OverAtMostGain(a, x, slope);
        OverIsMonotone(Height(a, x), Height(b, x), x, slope);
      }
    }
  }

  /** `m` has absorbed parts of `before`, in order of feerate and `rho` last,
      and the parts in `apart` are left. */
  ghost predicate Absorbing(apart: seq<FeeFrac>, m: FeeFrac, rho: FeeFrac, before: seq<FeeFrac>) {
    forall slope: FeeFrac :: slope.size > 0 ==> AbsorbingAlong(apart, m, rho, before, slope)
  }

  ghost predicate AbsorbingAlong(apart: seq<FeeFrac>, m: FeeFrac, rho: FeeFrac, before: seq<FeeFrac>, slope: FeeFrac) {
    && Pos(Cross(m, slope)) + Gain(apart, slope) >= Gain(before, slope)
    && (Cross(rho, slope) <= 0 ==> Gain(apart, slope) >= Gain(before, slope))
  }

  ghost function RemoveAt(rs: seq<FeeFrac>, k: nat): seq<FeeFrac>
    requires k < |rs|
  {
    rs[..k] + rs[k + 1..]
  }

  lemma GainRemoveAt(rs: seq<FeeFrac>, k: nat, slope: FeeFrac)
    requires k < |rs|
    ensures Gain(rs, slope) == Gain(RemoveAt(rs, k), slope) + Pos(Cross(rs[k], slope))
  {
    assert rs == rs[..k] + ([rs[k]] + rs[k + 1..]);
    GainConcat(rs[..k], [rs[k]] + rs[k + 1..], slope);
    GainConcat([rs[k]], rs[k + 1..], slope);
    GainSingle(rs[k], slope);
    GainConcat(rs[..k], rs[k + 1..], slope);
  }

  /** Absorbing one more part, at or above the last one and at or below `m`. */
  lemma Absorb(apart: seq<FeeFrac>, m: FeeFrac, rho: FeeFrac, before: seq<FeeFrac>, k: nat)
    requires Positive(apart) && m.size > 0 && (rho == BOTTOM || rho.size > 0)
    requires Absorbing(apart, m, rho, before) && k < |apart|
    requires Cross(rho, apart[k]) <= 0 && Cross(apart[k], m) <= 0
    ensures Absorbing(RemoveAt(apart, k), m.Plus(apart[k]), apart[k], before)
    ensures Cross(apart[k], m.Plus(apart[k])) <= 0
  {
    var d := apart[k];
    CrossPlus(d, m, d);
    forall slope: FeeFrac | slope.size > 0
      ensures AbsorbingAlong(RemoveAt(apart, k), m.Plus(d), d, before, slope)
    {
      assert AbsorbingAlong(apart, m, rho, before, slope);
      GainRemoveAt(apart, k, slope);
      AbsorbStep(m, d, rho, slope, Gain(apart, slope), Gain(before, slope));
    }
  }

  lemma AbsorbedGainAt(apart: seq<FeeFrac>, m: FeeFrac, k: nat, prefix: seq<FeeFrac>, next: FeeFrac, slope: FeeFrac)
    requires k <= |apart| && Total(apart).Plus(m) == Total(prefix).Plus(next)
    requires Pos(Cross(m, slope)) + Gain(apart, slope) >= Peak(prefix, slope)
    ensures Gain(apart[..k] + [m] + apart[k..], slope) >= Peak(prefix + [next], slope)
  {
    var after := apart[..k] + [m] + apart[k..];
    var t, p := Total(apart), Total(prefix);
    assert Gain(after, slope) == Gain(apart, slope) + Pos(Cross(m, slope)) by {
      assert RemoveAt(after, k) == apart && after[k] == m;
      GainRemoveAt(after, k, slope);
    }
    assert Peak(prefix + [next], slope) <= Peak(prefix, slope)
        || Peak(prefix + [next], slope) == Cross(p, slope) + Pos(Cross(next, slope)) by {
      PeakConcat(prefix, [next], slope);
      assert [next][1..] == [];
    }
    assert Cross(p, slope) <= Peak(prefix, slope) by {
      PeakIsGreatestPrefix(prefix, slope, |prefix|);
      assert prefix[..|prefix|] == prefix;
    }
    TotalAtMostGain(apart, slope);
    CrossPlus(t, m, slope);
    CrossPlus(p, next, slope);
  }

  /** `parts` gain at least what every prefix of `order` is worth. */
  ghost predicate Covers(parts: seq<FeeFrac>, order: seq<FeeFrac>) {
    forall slope: FeeFrac :: slope.size > 0 ==> CoversAlong(parts, order, slope)
  }

  ghost predicate CoversAlong(parts: seq<FeeFrac>, order: seq<FeeFrac>, slope: FeeFrac) {
    Gain(parts, slope) >= Peak(order, slope)
  }

  /** Nothing is lost when the next transaction has absorbed what it can, and
      the parts together are worth what their total is: so the parts gain what
      every prefix of the order is worth. */
  lemma AbsorbedGain(apart: seq<FeeFrac>, m: FeeFrac, rho: FeeFrac, before: seq<FeeFrac>, k: nat,
                     prefix: seq<FeeFrac>, next: FeeFrac)
    requires Absorbing(apart, m, rho, before) && k <= |apart|
    requires Covers(before, prefix)
    requires Total(apart).Plus(m) == Total(prefix).Plus(next)
    ensures Covers(apart[..k] + [m] + apart[k..], prefix + [next])
  {
    forall slope: FeeFrac | slope.size > 0
      ensures CoversAlong(apart[..k] + [m] + apart[k..], prefix + [next], slope)
    {
      assert CoversAlong(before, prefix, slope);
      assert AbsorbingAlong(apart, m, rho, before, slope);
      AbsorbedGainAt(apart, m, k, prefix, next, slope);
    }
  }

  lemma {:induction false} TotalAtMostGain(rs: seq<FeeFrac>, slope: FeeFrac)
    ensures Cross(Total(rs), slope) <= Gain(rs, slope)
  {
    if rs != [] {
      TotalAtMostGain(rs[1..], slope);
      CrossPlus(rs[0], Total(rs[1..]), slope);
    }
  }

  /** Where the parts are a stack: the part last taken off it. */
  ghost function LastTaken(rs: seq<FeeFrac>, base: seq<FeeFrac>): FeeFrac {
    if |rs| < |base| then base[|rs|] else BOTTOM
  }

  /** The sorted stack `base`, down to `rs`, whose top `m` has absorbed. */
  ghost predicate Unstacked(rs: seq<FeeFrac>, m: FeeFrac, base: seq<FeeFrac>) {
    && Positive(base) && Sorted(base) && |rs| <= |base| && rs == base[..|rs|] && m.size > 0
    && Absorbing(rs, m, LastTaken(rs, base), base)
  }

  lemma AbsorbTop(rs: seq<FeeFrac>, m: FeeFrac, base: seq<FeeFrac>)
    requires Unstacked(rs, m, base) && rs != [] && Cross(m, rs[|rs| - 1]) > 0
    ensures Unstacked(rs[..|rs| - 1], m.Plus(rs[|rs| - 1]), base)
  {
    var n := |rs| - 1;
    CrossPlus(rs[n], m, m);
    assert base[n] == rs[n];
    CrossPlus(rs[n], LastTaken(rs, base), rs[n]);
    Absorb(rs, m, LastTaken(rs, base), base, n);
    assert RemoveAt(rs, n) == rs[..n];
  }

  /** Pushing `m`, once the top of the stack is no worse. */
  lemma PushOn(rs: seq<FeeFrac>, m: FeeFrac, base: seq<FeeFrac>)
    requires Unstacked(rs, m, base)
    requires rs != [] ==> Cross(m, rs[|rs| - 1]) <= 0
    ensures Sorted(rs + [m])
  {
    forall i | 0 <= i < |rs|
      ensures Cross(rs[i], m) >= 0
    {
      var last := rs[|rs| - 1];
      CrossPlus(m, last, last);
      CrossPlus(rs[i], rs[i], rs[i]);
      assert Cross(base[i], base[i]) >= 0;
      assert i == |rs| - 1 || Cross(base[i], base[|rs| - 1]) >= 0;
      CrossTrans(rs[i], last, m);
    }
  }

  lemma PushedGain(rs: seq<FeeFrac>, m: FeeFrac, base: seq<FeeFrac>, prefix: seq<FeeFrac>, next: FeeFrac)
    requires Unstacked(rs, m, base) && Covers(base, prefix)
    requires Total(rs + [m]) == Total(prefix + [next])
    ensures Covers(rs + [m], prefix + [next])
  {
    TotalConcat(rs, [m]);
    TotalConcat(prefix, [next]);
    assert [next][1..] == [] && [m][1..] == [];
    AbsorbedGain(rs, m, LastTaken(rs, base), base, |rs|, prefix, next);
    assert rs[..|rs|] + [m] + rs[|rs|..] == rs + [m];
  }

  /** Every part of `rs` that is cut off in front is below all of it. */
  ghost predicate PrefixesBelow(rs: seq<FeeFrac>) {
    forall k :: 0 < k < |rs| ==> Cross(Total(rs[..k]), Total(rs)) < 0
  }

  lemma TotalAtCut(rs: seq<FeeFrac>, k: nat)
    requires Positive(rs) && k <= |rs|
    ensures Total(rs) == Total(rs[..k]).Plus(Total(rs[k..]))
    ensures (k > 0 ==> Total(rs[..k]).size > 0) && (k < |rs| ==> Total(rs[k..]).size > 0)
  {
    assert rs == rs[..k] + rs[k..];
    TotalConcat(rs[..k], rs[k..]);
    TotalPositive(rs[..k]);
    TotalPositive(rs[k..]);
  }

  /** Below a part, and so below what it is merged with, where that is above. */
  lemma BelowMerged(y: FeeFrac, p: FeeFrac, m: FeeFrac)
    requires y.size > 0 && p.size > 0 && m.size > 0 && Cross(y, p) <= 0 && Cross(m, p) > 0
    ensures Cross(y, p.Plus(m)) < 0
  {
    CrossFlip(y, p);
    CrossFlip(p, y);
    CrossTrans(m, p, y);
    CrossPlus(p, m, y);
    CrossFlip(p.Plus(m), y);
  }

  /** What is left of the upper part is above the two merged. */
  lemma RestAboveMerged(z: FeeFrac, r: FeeFrac, p: FeeFrac)
    requires z.size > 0 && r.size > 0 && p.size > 0 && Cross(z, z.Plus(r)) < 0 && Cross(z.Plus(r), p) > 0
    ensures Cross(p.Plus(z), p.Plus(z.Plus(r))) < 0
  {
    var m := z.Plus(r);
    CrossPlus(z, r, m);
    CrossFlip(m, m);
    CrossTrans(r, m, p);
    CrossPlus(p, m, r);
    CrossFlip(p.Plus(m), r);
    CrossFlip(p, r);
    CrossFlip(m, r);
    CrossPlus(p.Plus(z), r, p.Plus(m));
    CrossFlip(p.Plus(m), p.Plus(m));
  }

  lemma PrefixOfConcat(p: seq<FeeFrac>, m: seq<FeeFrac>, k: nat)
    requires Positive(p) && Positive(m) && PrefixesBelow(p) && PrefixesBelow(m) && 0 < k < |p| + |m|
    requires p != [] && m != [] && Cross(Total(m), Total(p)) > 0
    ensures Cross(Total((p + m)[..k]), Total(p + m)) < 0
  {
    TotalConcat(p, m);
    TotalPositive(p);
    TotalPositive(m);
    if k <= |p| {
      assert (p + m)[..k] == p[..k] && p[..|p|] == p;
      TotalAtCut(p, k);
      CrossFlip(Total(p), Total(p));
      BelowMerged(Total(p[..k]), Total(p), Total(m));
    } else {
      var j := k - |p|;
      assert (p + m)[..k] == p + m[..j];
      TotalConcat(p, m[..j]);
      TotalAtCut(m, j);
      RestAboveMerged(Total(m[..j]), Total(m[j..]), Total(p));
    }
  }

  /** Merging with a lower-feerate part before it. */
  lemma PrefixesBelowConcat(p: seq<FeeFrac>, m: seq<FeeFrac>)
    requires Positive(p) && Positive(m) && PrefixesBelow(p) && PrefixesBelow(m)
    requires p != [] && m != [] && Cross(Total(m), Total(p)) > 0
    ensures PrefixesBelow(p + m)
  {
    forall k | 0 < k < |p + m|
      ensures Cross(Total((p + m)[..k]), Total(p + m)) < 0
    {
      PrefixOfConcat(p, m, k);
    }
  }

  ghost function Flatten<T>(parts: seq<seq<T>>): seq<T> {
    if parts == [] then [] else parts[0] + Flatten(parts[1..])
  }

  lemma {:induction false} FlattenConcat<T>(a: seq<seq<T>>, b: seq<seq<T>>)
    ensures Flatten(a + b) == Flatten(a) + Flatten(b)
  {
    if a == [] {
      assert a + b == b;
    } else {
      assert (a + b)[1..] == a[1..] + b;
      FlattenConcat(a[1..], b);
    }
  }

  lemma FlattenAppend<T>(a: seq<seq<T>>, last: seq<T>)
    ensures Flatten(a + [last]) == Flatten(a) + last
  {
    FlattenConcat(a, [last]);
    assert [last][1..] == [];
    assert Flatten([last]) == last + [];
  }

  lemma FlattenAt<T>(a: seq<seq<T>>, i: nat)
    requires i < |a|
    ensures Flatten(a) == Flatten(a[..i]) + a[i] + Flatten(a[i + 1..])
  {
    Sequences.SplitOff(a, i);
    FlattenThree(a[..i], a[i], a[i + 1..]);
  }

  lemma FlattenThree<T>(x: seq<seq<T>>, m: seq<T>, y: seq<seq<T>>)
    ensures Flatten(x + [m] + y) == Flatten(x) + m + Flatten(y)
  {
    FlattenConcat(x + [m], y);
    FlattenAppend(x, m);
  }

  ghost function Totals(parts: seq<seq<FeeFrac>>): seq<FeeFrac> {
    seq(|parts|, i requires 0 <= i < |parts| => Total(parts[i]))
  }

  lemma {:induction false} TotalOfParts(parts: seq<seq<FeeFrac>>)
    ensures Total(Totals(parts)) == Total(Flatten(parts))
  {
    if parts != [] {
      var ts := Totals(parts);
      assert ts[0] == Total(parts[0]) && ts[1..] == Totals(parts[1..]);
      TotalOfParts(parts[1..]);
      assert Total(ts) == ts[0].Plus(Total(ts[1..]));
      TotalConcat(parts[0], Flatten(parts[1..]));
    }
  }

  /** An order rises at least as high as its parts do, each taken whole. */
  lemma {:induction false} PeakOfParts(parts: seq<seq<FeeFrac>>, slope: FeeFrac)
    ensures Peak(Flatten(parts), slope) >= Peak(Totals(parts), slope)
  {
    if parts != [] {
      PeakOfParts(parts[1..], slope);
      PeakConcat(parts[0], Flatten(parts[1..]), slope);
      assert Totals(parts)[1..] == Totals(parts[1..]);
    }
  }
}
