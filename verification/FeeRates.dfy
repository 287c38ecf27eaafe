/** Fees with sizes, and the exact comparison of feerates.

    `Cross(a, b)` is the difference that `feerate_compare` takes the sign of.
    It is bilinear, so `Cross(a, slope)` is also the height of `a` above a
    line of the given slope. Every theorem about feerate diagrams in this
    project is a statement about `Cross(_, slope)` for all slopes. */
module FeeRates {

  datatype FeeFrac = FeeFrac(fee: int, size: int) {
    function Plus(b: FeeFrac): FeeFrac {
      FeeFrac(fee + b.fee, size + b.size)
    }

    function Minus(b: FeeFrac): FeeFrac {
      FeeFrac(fee - b.fee, size - b.size)
    }

    function Neg(): FeeFrac {
      FeeFrac(-fee, size)
    }
  }

  const ZERO := FeeFrac(0, 0)

  /** Cross-multiplies below every feerate of positive size. */
  const BOTTOM := FeeFrac(-1, 0)

  function Cross(a: FeeFrac, b: FeeFrac): int {
    a.fee * b.size - b.fee * a.size
  }

  function Pos(x: int): (r: int)
    ensures r >= 0 && r >= x
  {
    if x > 0 then x else 0
  }

  function FeerateCompare(a: FeeFrac, b: FeeFrac): (r: int)
    ensures r == 1 <==> Cross(a, b) > 0
    ensures r == -1 <==> Cross(a, b) < 0
    ensures r == 0 <==> Cross(a, b) == 0
  {
    (if a.fee * b.size > b.fee * a.size then 1 else 0)
    - (if a.fee * b.size < b.fee * a.size then 1 else 0)
  }

  lemma CrossPlus(a: FeeFrac, b: FeeFrac, c: FeeFrac)
    ensures Cross(a.Plus(b), c) == Cross(a, c) + Cross(b, c)
    ensures Cross(c, a.Plus(b)) == Cross(c, a) + Cross(c, b)
    ensures Cross(a, c) == -Cross(c, a)
    ensures Cross(a, a) == 0
  {
  }

  lemma CrossFlip(a: FeeFrac, b: FeeFrac)
    ensures Cross(a, b) == -Cross(b, a)
  {
  }

  lemma PlusAssociates(a: FeeFrac, b: FeeFrac, c: FeeFrac)
    ensures a.Plus(b).Plus(c) == a.Plus(b.Plus(c))
  {
  }

  lemma CrossNeg(a: FeeFrac, b: FeeFrac)
    ensures Cross(a.Neg(), b.Neg()) == -Cross(a, b)
  {
  }

  /** Scaling identity behind every transitivity fact. */
  lemma CrossScale(a: FeeFrac, b: FeeFrac, c: FeeFrac)
    ensures Cross(a, c) * b.size == Cross(a, b) * c.size + Cross(b, c) * a.size
  {
  }

  /** A product with a positive factor has the other factor's sign. */
  lemma SignOfProduct(x: int, y: int)
    requires y > 0
    ensures x * y > 0 <==> x > 0
    ensures x * y >= 0 <==> x >= 0
  {
  }

  /** `a` at or above `b`, and `b` at or above `c`. */
  lemma CrossTrans(a: FeeFrac, b: FeeFrac, c: FeeFrac)
    requires a.size >= 0 && b.size > 0 && c.size >= 0
    requires Cross(a, b) >= 0 && Cross(b, c) >= 0
    ensures Cross(a, c) >= 0
    ensures Cross(a, b) > 0 && c.size > 0 ==> Cross(a, c) > 0
    ensures Cross(b, c) > 0 && a.size > 0 ==> Cross(a, c) > 0
  {
    CrossScale(a, b, c);
    var x, y := Cross(a, b), Cross(b, c);
    SignOfProduct(Cross(a, c), b.size);
    assert x * c.size >= 0 && y * a.size >= 0;
    assert x > 0 && c.size > 0 ==> x * c.size > 0;
    assert y > 0 && a.size > 0 ==> y * a.size > 0;
  }

  /** `a`'s feerate is below `b`'s. */
  ghost predicate Below(a: FeeFrac, b: FeeFrac) {
    Cross(a, b) < 0
  }

  ghost predicate AtMost(a: FeeFrac, b: FeeFrac) {
    Cross(a, b) <= 0
  }

  lemma Chain(a: FeeFrac, b: FeeFrac, c: FeeFrac)
    requires a.size >= 0 && b.size > 0 && c.size > 0
    requires AtMost(a, b) && AtMost(b, c)
    ensures AtMost(a, c) && (Below(a, b) ==> Below(a, c)) && (a.size > 0 && Below(b, c) ==> Below(a, c))
  {
    CrossFlip(b, a);
    CrossFlip(c, b);
    CrossFlip(c, a);
    CrossTrans(c, b, a);
  }

  lemma NotBoth(a: FeeFrac, b: FeeFrac)
    ensures !(Below(a, b) && AtMost(b, a))
    ensures Below(a, b) ==> AtMost(a, b)
  {
    CrossFlip(a, b);
  }

  /** Merging with a part at or below it keeps a feerate above that part, and
      above everything that both are above. */
  lemma MergedRate(m: FeeFrac, y: FeeFrac, floor: FeeFrac)
    requires AtMost(y, m) && AtMost(floor, y) && Below(floor, m)
    ensures AtMost(y, m.Plus(y)) && Below(floor, m.Plus(y))
  {
    CrossPlus(m, y, y);
    CrossPlus(m, y, floor);
    CrossFlip(m, y);
    CrossFlip(m, floor);
    CrossFlip(y, floor);
    CrossFlip(m.Plus(y), floor);
    CrossFlip(m.Plus(y), y);
  }

  /** A part at or below the whole's feerate, and no larger than it, is worth
      at most what the whole is, or nothing, along every slope. */
  lemma PartOfWhole(part: FeeFrac, whole: FeeFrac, slope: FeeFrac)
    requires 0 <= part.size <= whole.size && whole.size > 0 && slope.size > 0
    requires Cross(part, whole) <= 0
    ensures Cross(part, slope) <= Pos(Cross(whole, slope))
  {
    CrossScale(part, whole, slope);
    var w, above := Cross(whole, slope), Pos(Cross(whole, slope));
    assert Cross(part, whole) * slope.size <= 0;
    assert w * part.size <= above * part.size <= above * whole.size;
    SignOfProduct(above - Cross(part, slope), whole.size);
  }

  /** One step of every merge loop in this project, along one slope.

      `m` has been absorbing parts in order of feerate, `rho` last, and is
      about to absorb `d`, which it beats or ties. What the absorbed parts
      were worth is never lost: `rest` is the worth of the parts that are
      still apart, and `before` that of all of them. */
  lemma AbsorbStep(m: FeeFrac, d: FeeFrac, rho: FeeFrac, slope: FeeFrac, rest: int, before: int)
    requires m.size > 0 && d.size > 0 && rho.size >= 0 && slope.size > 0
    requires Cross(rho, d) <= 0 && Cross(d, m) <= 0
    requires rho == BOTTOM || rho.size > 0
    requires Pos(Cross(m, slope)) + rest >= before
    requires Cross(rho, slope) <= 0 ==> rest >= before
    ensures Pos(Cross(m.Plus(d), slope)) + (rest - Pos(Cross(d, slope))) >= before
    ensures Cross(d, slope) <= 0 ==> rest - Pos(Cross(d, slope)) >= before
    ensures Cross(d, m.Plus(d)) <= 0
  {
    CrossPlus(m, d, slope);
    CrossPlus(m, d, d);
    CrossPlus(m, d, m);
    if Cross(d, slope) > 0 {
      CrossTrans(m, d, slope);
    } else if rho.size > 0 {
      CrossPlus(slope, d, rho);
      CrossTrans(slope, d, rho);
    }
  }
}
