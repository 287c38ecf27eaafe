/** The comparison of two feerate diagrams, breakpoint by breakpoint. */
module CompareChunks {
  import opened Diagrams
  import opened FeeRates
  import opened Options

  /** `a` is above `b` at some size. */
  ghost predicate Better(a: seq<FeeFrac>, b: seq<FeeFrac>)
    requires Positive(a) && Positive(b)
  {
    exists x: real :: x >= 0.0 && Height(a, x) > Height(b, x)
  }

  /** What a comparison of all of two diagrams answers. */
  ghost function Verdict(a: seq<FeeFrac>, b: seq<FeeFrac>): Option<int>
    requires Positive(a) && Positive(b)
  {
    if Better(a, b) then
      if Better(b, a) then None else Some(1)
    else
      if Better(b, a) then Some(-1) else Some(0)
  }

  /** Between two sizes, the diagram is the line `alpha + beta * x`. */
  ghost predicate OnLine(rs: seq<FeeFrac>, alpha: real, beta: real, lo: real, hi: real)
    requires Positive(rs)
  {
    forall x: real :: lo <= x <= hi ==> Height(rs, x) == alpha + beta * x
  }

  lemma TotalNext(rs: seq<FeeFrac>, i: nat)
    requires i < |rs|
    ensures Total(rs[..i + 1]) == Total(rs[..i]).Plus(rs[i])
  {
    assert rs[..i + 1] == rs[..i] + [rs[i]];
    TotalConcat(rs[..i], [rs[i]]);
    assert [rs[i]][1..] == [];
  }

  lemma FirstPiece(rs: seq<FeeFrac>) returns (beta: real)
    requires Positive(rs) && rs != []
    ensures beta * rs[0].size as real == rs[0].fee as real
    ensures OnLine(rs, 0.0, beta, 0.0, rs[0].size as real)
  {
    var fee, size := rs[0].fee as real, rs[0].size as real;
    beta := fee / size;
    assert beta * size == fee;
    forall x: real | 0.0 <= x <= size
      ensures Height(rs, x) == 0.0 + beta * x
    {
      assert fee * (x / size) == beta * x;
    }
  }

  lemma LaterPiece(rs: seq<FeeFrac>, alpha: real, beta: real, lo: real, hi: real)
    requires Positive(rs) && rs != [] && 0.0 <= lo && OnLine(rs[1..], alpha, beta, lo, hi)
    ensures var size := rs[0].size as real;
            OnLine(rs, rs[0].fee as real + alpha - beta * size, beta, lo + size, hi + size)
  {
    var fee, size := rs[0].fee as real, rs[0].size as real;
    forall x: real | lo + size <= x <= hi + size
      ensures Height(rs, x) == fee + alpha - beta * size + beta * x
    {
      var x' := x - size;
      assert Height(rs[1..], x') == alpha + beta * x';
      HeightBeyond(rs, x');
      assert beta * x' == beta * x - beta * size;
    }
  }

  lemma TailTotal(rs: seq<FeeFrac>, i: nat)
    requires Positive(rs) && 0 < i <= |rs|
    ensures Total(rs[..i]) == rs[0].Plus(Total(rs[1..][..i - 1])) && Total(rs[1..][..i - 1]).size >= 0
  {
    assert rs[..i][1..] == rs[1..][..i - 1];
    TotalPositive(rs[1..][..i - 1]);
  }

  lemma OnPoint(alpha: real, beta: real, size: real, fee: real, t: FeeFrac)
    requires alpha + beta * t.size as real == t.fee as real
    ensures fee + alpha - beta * size + beta * (size + t.size as real) == fee + t.fee as real
  {
    assert beta * (size + t.size as real) == beta * size + beta * t.size as real;
  }

  /** The line between two breakpoints of `rs`. */
  ghost predicate IsPiece(rs: seq<FeeFrac>, i: nat, alpha: real, beta: real)
    requires Positive(rs) && i < |rs|
  {
    && beta * rs[i].size as real == rs[i].fee as real
    && alpha + beta * Total(rs[..i]).size as real == Total(rs[..i]).fee as real
    && OnLine(rs, alpha, beta, Total(rs[..i]).size as real, Total(rs[..i + 1]).size as real)
  }

  lemma NextPiece(rs: seq<FeeFrac>, i: nat, alpha: real, beta: real)
    requires Positive(rs) && 0 < i < |rs| && IsPiece(rs[1..], i - 1, alpha, beta)
    ensures IsPiece(rs, i, rs[0].fee as real + alpha - beta * rs[0].size as real, beta)
  {
    var tail, size := rs[1..], rs[0].size as real;
    TailTotal(rs, i);
    TailTotal(rs, i + 1);
    var lo, hi := Total(tail[..i - 1]).size, Total(tail[..i]).size;
    LaterPiece(rs, alpha, beta, lo as real, hi as real);
    assert lo as real + size == Total(rs[..i]).size as real && hi as real + size == Total(rs[..i + 1]).size as real;
    OnPoint(alpha, beta, size, rs[0].fee as real, Total(tail[..i - 1]));
  }

  /** A diagram is a straight line between two of its breakpoints. */
  lemma {:induction false} Piece(rs: seq<FeeFrac>, i: nat) returns (alpha: real, beta: real)
    requires Positive(rs) && i < |rs|
    ensures IsPiece(rs, i, alpha, beta)
  {
    if i == 0 {
      TotalNext(rs, i);
      assert rs[..0] == [];
      beta := FirstPiece(rs);
      alpha := 0.0;
    } else {
      alpha, beta := Piece(rs[1..], i - 1);
      NextPiece(rs, i, alpha, beta);
      alpha := rs[0].fee as real + alpha - beta * rs[0].size as real;
    }
  }

  /** Of two lines, the one on top within an interval is on top at an end. */
  lemma OnTopAtAnEnd(a: real, b: real, a': real, b': real, u: real, v: real, x: real)
    requires u <= x <= v && a + b * x > a' + b' * x
    ensures a + b * u > a' + b' * u || a + b * v > a' + b' * v
  {
    var d := b - b';
    assert d * x == b * x - b' * x;
    assert d * u == b * u - b' * u;
    assert d * v == b * v - b' * v;
    if d >= 0.0 {
      assert d * x <= d * v;
    } else {
      assert d * x <= d * u;
    }
  }

  /** The part of `o` after `j`: flat where there is none. */
  ghost function PartAfter(o: seq<FeeFrac>, j: nat): (part: FeeFrac)
    requires j <= |o| && Positive(o)
    ensures part.size > 0
  {
    if j < |o| then o[j] else FeeFrac(0, 1)
  }

  /** What the loop reads at the breakpoint after `i` of `s`, where `o` has been
      read up to `j`, and its next breakpoint does not come first. */
  ghost function Slope(s: seq<FeeFrac>, o: seq<FeeFrac>, i: nat, j: nat): int
    requires i < |s| && j <= |o| && Positive(o)
  {
    Cross(Total(s[..i + 1]).Minus(Total(o[..j])), PartAfter(o, j))
  }

  /** `o` as a line from `j` on, up to its next breakpoint if it has one. */
  ghost predicate IsOnward(o: seq<FeeFrac>, j: nat, to: real, alpha: real, beta: real)
    requires Positive(o) && j <= |o|
  {
    OnLine(o, alpha, beta, Total(o[..j]).size as real, to)
  }

  lemma Onwards(o: seq<FeeFrac>, j: nat, to: real) returns (alpha: real, beta: real)
    requires Positive(o) && j <= |o|
    requires j < |o| ==> to <= Total(o[..j + 1]).size as real
    ensures IsOnward(o, j, to, alpha, beta)
  {
    if j < |o| {
      alpha, beta := Piece(o, j);
      LineWithin(o, alpha, beta, Total(o[..j]).size as real, Total(o[..j + 1]).size as real, to);
    } else {
      assert o[..j] == o;
      alpha, beta := Total(o).fee as real, 0.0;
      FlatLine(o, to);
    }
  }

  lemma LineWithin(o: seq<FeeFrac>, alpha: real, beta: real, lo: real, hi: real, to: real)
    requires Positive(o) && OnLine(o, alpha, beta, lo, hi) && to <= hi
    ensures OnLine(o, alpha, beta, lo, to)
  {
  }

  lemma LineFrom(o: seq<FeeFrac>, alpha: real, beta: real, lo: real, from: real, to: real)
    requires Positive(o) && OnLine(o, alpha, beta, lo, to) && lo <= from
    ensures OnLine(o, alpha, beta, from, to)
  {
  }

  lemma FlatLine(o: seq<FeeFrac>, to: real)
    requires Positive(o)
    ensures OnLine(o, Total(o).fee as real, 0.0, Total(o).size as real, to)
  {
    forall x: real | Total(o).size as real <= x <= to
      ensures Height(o, x) == Total(o).fee as real + 0.0 * x
    {
      FlatAfterEnd(o, x);
    }
  }

  /** Two lines over one interval: whichever is on top inside is on top at an
      end. */
  lemma LinesCross(s: seq<FeeFrac>, o: seq<FeeFrac>, a: real, b: real, a': real, b': real, u: real, v: real)
    requires Positive(s) && Positive(o) && u <= v
    requires OnLine(s, a, b, u, v) && OnLine(o, a', b', u, v)
    ensures EndsDecide(s, o, u, v)
  {
    forall x: real | u <= x <= v && Height(s, x) > Height(o, x)
      ensures Height(s, u) > Height(o, u) || Height(s, v) > Height(o, v)
    {
      OnTopAtAnEnd(a, b, a', b', u, v, x);
    }
  }

  /** `s` is on top within the interval only where it is at an end of it. */
  ghost predicate EndsDecide(s: seq<FeeFrac>, o: seq<FeeFrac>, u: real, v: real)
    requires Positive(s) && Positive(o)
  {
    forall x: real :: u <= x <= v && Height(s, x) > Height(o, x) ==>
      Height(s, u) > Height(o, u) || Height(s, v) > Height(o, v)
  }

  ghost predicate IsNext(s: seq<FeeFrac>, o: seq<FeeFrac>, i: nat, j: nat, from: int) {
    && Positive(s) && Positive(o) && i < |s| && j <= |o|
    && Total(s[..i]).size <= from && Total(o[..j]).size <= from < Total(s[..i + 1]).size
    && (j < |o| ==> Total(s[..i + 1]).size <= Total(o[..j + 1]).size)
  }

  /** Beyond its first `j` parts, a diagram goes on as that of the rest. */
  lemma {:induction false} HeightPast(rs: seq<FeeFrac>, j: nat, x: real)
    requires Positive(rs) && j <= |rs| && x >= 0.0
    ensures Height(rs, Total(rs[..j]).size as real + x) == Total(rs[..j]).fee as real + Height(rs[j..], x)
  {
    if j == 0 {
      assert rs[..j] == [] && rs[j..] == rs;
    } else {
      var tail := rs[1..];
      assert rs[..j][1..] == tail[..j - 1] && rs[j..] == tail[j - 1..];
      TotalPositive(tail[..j - 1]);
      HeightPast(tail, j - 1, x);
      HeightBeyond(rs, Total(tail[..j - 1]).size as real + x);
    }
  }

  /** The sign that decides a breakpoint. */
  lemma SlopeSign(rise: FeeFrac, part: FeeFrac, h: real)
    requires part.size > 0 && SameSlope(h, rise.size as real, part)
    ensures Cross(rise, part) > 0 <==> rise.fee as real > h
    ensures Cross(rise, part) < 0 <==> rise.fee as real < h
  {
    var n := part.size as real;
    assert Cross(rise, part) as real == rise.fee as real * n - part.fee as real * rise.size as real;
    assert Cross(rise, part) as real == (rise.fee as real - h) * n;
  }

  ghost predicate SameSlope(h: real, x: real, part: FeeFrac) {
    h * part.size as real == part.fee as real * x
  }

  lemma HeightWithinNext(o: seq<FeeFrac>, j: nat, x: real)
    requires Positive(o) && j <= |o| && x >= 0.0 && (j < |o| ==> x <= o[j].size as real)
    ensures SameSlope(Height(o[j..], x), x, PartAfter(o, j))
  {
    if j < |o| {
      var n, share := o[j].size as real, x / o[j].size as real;
      assert share * n == x;
      assert o[j].fee as real * share * n == o[j].fee as real * x;
    }
  }

  /** How the line that `o` is on compares to a point. */
  lemma ReadLine(o: seq<FeeFrac>, j: nat, p: FeeFrac)
    requires Positive(o) && j <= |o| && Total(o[..j]).size <= p.size
    requires j < |o| ==> p.size <= Total(o[..j + 1]).size
    ensures var cmp := Cross(p.Minus(Total(o[..j])), PartAfter(o, j));
            && (cmp > 0 <==> p.fee as real > Height(o, p.size as real))
            && (cmp < 0 <==> p.fee as real < Height(o, p.size as real))
  {
    var t := Total(o[..j]);
    var rise := p.Minus(t);
    if j < |o| {
      TotalNext(o, j);
    }
    var x := rise.size as real;
    HeightPast(o, j, x);
    HeightWithinNext(o, j, x);
    SlopeSign(rise, PartAfter(o, j), Height(o[j..], x));
    assert t.size as real + x == p.size as real && t.fee as real + rise.fee as real == p.fee as real;
  }

  /** What is read at a breakpoint is which of the two is higher there. */
  lemma ReadBreakpoint(s: seq<FeeFrac>, o: seq<FeeFrac>, i: nat, j: nat, from: int)
    requires IsNext(s, o, i, j, from)
    ensures var v := Total(s[..i + 1]).size as real;
            && (Slope(s, o, i, j) > 0 <==> Height(s, v) > Height(o, v))
            && (Slope(s, o, i, j) < 0 <==> Height(s, v) < Height(o, v))
  {
    HeightPast(s, i + 1, 0.0);
    HeightAtZero(s[i + 1..]);
    ReadLine(o, j, Total(s[..i + 1]));
  }

  /** Between two breakpoints, neither is on top unless it is at one of them. */
  lemma BetweenBreakpoints(s: seq<FeeFrac>, o: seq<FeeFrac>, i: nat, j: nat, from: int)
    requires IsNext(s, o, i, j, from)
    ensures EndsDecide(s, o, from as real, Total(s[..i + 1]).size as real)
    ensures EndsDecide(o, s, from as real, Total(s[..i + 1]).size as real)
  {
    var u, v := from as real, Total(s[..i + 1]).size as real;
    var a, b := Piece(s, i);
    var a', b' := Onwards(o, j, v);
    LineFrom(s, a, b, Total(s[..i]).size as real, u, v);
    LineFrom(o, a', b', Total(o[..j]).size as real, u, v);
    LinesCross(s, o, a, b, a', b', u, v);
    LinesCross(o, s, a', b', a, b, u, v);
  }

  /** Up to size `to`, each is on top of the other only where its flag is up,
      and each flag that is up is right. */
  ghost predicate FlagsUpTo(a: seq<FeeFrac>, b: seq<FeeFrac>, better: seq<bool>, to: real)
    requires Positive(a) && Positive(b) && |better| == 2
  {
    && (better[0] ==> Better(a, b))
    && (better[1] ==> Better(b, a))
    && (forall x: real :: 0.0 <= x <= to && Height(a, x) > Height(b, x) ==> better[0])
    && (forall x: real :: 0.0 <= x <= to && Height(b, x) > Height(a, x) ==> better[1])
  }

  lemma FlagsOnward(a: seq<FeeFrac>, b: seq<FeeFrac>, better: seq<bool>, better': seq<bool>, u: real, v: real)
    requires Positive(a) && Positive(b) && |better| == 2 && |better'| == 2 && 0.0 <= u <= v
    requires FlagsUpTo(a, b, better, u) && EndsDecide(a, b, u, v) && EndsDecide(b, a, u, v)
    requires better'[0] == (better[0] || Height(a, v) > Height(b, v))
    requires better'[1] == (better[1] || Height(a, v) < Height(b, v))
    ensures FlagsUpTo(a, b, better', v)
  {
  }

  lemma FlagsAtEnd(a: seq<FeeFrac>, b: seq<FeeFrac>, better: seq<bool>, end: int)
    requires Positive(a) && Positive(b) && |better| == 2 && FlagsUpTo(a, b, better, end as real)
    requires end >= Total(a).size && end >= Total(b).size && end >= 0
    ensures better[0] <==> Better(a, b)
    ensures better[1] <==> Better(b, a)
  {
    FlatAfterEnd(a, end as real);
    FlatAfterEnd(b, end as real);
    forall x: real | x > end as real
      ensures Height(a, x) == Height(a, end as real) && Height(b, x) == Height(b, end as real)
    {
      FlatAfterEnd(a, x);
      FlatAfterEnd(b, x);
    }
  }

  /** Where both lists have been read up to, and that neither has been read
      past the next breakpoint of the other. */
  ghost predicate Reading(chunk: seq<seq<FeeFrac>>, next: seq<nat>, accum: seq<FeeFrac>) {
    && |chunk| == 2 && |next| == 2 && |accum| == 2
    && Positive(chunk[0]) && Positive(chunk[1])
    && next[0] <= |chunk[0]| && next[1] <= |chunk[1]|
    && accum[0] == Total(chunk[0][..next[0]]) && accum[1] == Total(chunk[1][..next[1]])
    && accum[0].size >= 0 && accum[1].size >= 0
    && (next[0] < |chunk[0]| ==> accum[1].size < accum[0].size + chunk[0][next[0]].size)
    && (next[1] < |chunk[1]| ==> accum[0].size < accum[1].size + chunk[1][next[1]].size)
  }

  ghost function Frontier(accum: seq<FeeFrac>): int
    requires |accum| == 2
  {
    if accum[0].size > accum[1].size then accum[0].size else accum[1].size
  }

  function NextPoint(chunk: seq<seq<FeeFrac>>, next: seq<nat>, accum: seq<FeeFrac>, dia: nat): FeeFrac
    requires |chunk| == 2 && |next| == 2 && |accum| == 2 && dia < 2 && next[dia] < |chunk[dia]|
  {
    accum[dia].Plus(chunk[dia][next[dia]])
  }

  /** `side` has a breakpoint next, and the other list none before it. */
  ghost predicate ComesFirst(chunk: seq<seq<FeeFrac>>, next: seq<nat>, accum: seq<FeeFrac>, side: nat)
    requires Reading(chunk, next, accum) && side < 2
  {
    && next[side] < |chunk[side]|
    && (next[1 - side] < |chunk[1 - side]| ==>
          NextPoint(chunk, next, accum, side).size <= NextPoint(chunk, next, accum, 1 - side).size)
  }

  lemma TurnIsNext(chunk: seq<seq<FeeFrac>>, next: seq<nat>, accum: seq<FeeFrac>, side: nat)
    requires Reading(chunk, next, accum) && side < 2 && ComesFirst(chunk, next, accum, side)
    ensures IsNext(chunk[side], chunk[1 - side], next[side], next[1 - side], Frontier(accum))
    ensures NextPoint(chunk, next, accum, side) == Total(chunk[side][..next[side] + 1])
    ensures accum[1 - side] == Total(chunk[1 - side][..next[1 - side]])
  {
    TotalNext(chunk[side], next[side]);
    if next[1 - side] < |chunk[1 - side]| {
      TotalNext(chunk[1 - side], next[1 - side]);
    }
  }

  /** What one turn of the loop reads. */
  lemma Turn(chunk: seq<seq<FeeFrac>>, next: seq<nat>, accum: seq<FeeFrac>, side: nat, cmp: int)
    requires Reading(chunk, next, accum) && side < 2 && ComesFirst(chunk, next, accum, side)
    requires var rise := NextPoint(chunk, next, accum, side).Minus(accum[1 - side]);
             cmp == FeerateCompare(rise, PartAfter(chunk[1 - side], next[1 - side]))
    ensures var s, o, v := chunk[side], chunk[1 - side], NextPoint(chunk, next, accum, side).size as real;
            && (cmp > 0 <==> Height(s, v) > Height(o, v)) && (cmp < 0 <==> Height(s, v) < Height(o, v))
            && EndsDecide(s, o, Frontier(accum) as real, v) && EndsDecide(o, s, Frontier(accum) as real, v)
  {
    TurnIsNext(chunk, next, accum, side);
    ReadBreakpoint(chunk[side], chunk[1 - side], next[side], next[1 - side], Frontier(accum));
    BetweenBreakpoints(chunk[side], chunk[1 - side], next[side], next[1 - side], Frontier(accum));
  }

  /** Where one turn of the loop leaves the two lists. */
  lemma Advance(chunk: seq<seq<FeeFrac>>, next: seq<nat>, accum: seq<FeeFrac>, side: nat, next': seq<nat>,
                accum': seq<FeeFrac>)
    requires Reading(chunk, next, accum) && side < 2 && ComesFirst(chunk, next, accum, side)
    requires |next'| == 2 && |accum'| == 2
    requires next'[side] == next[side] + 1 && accum'[side] == NextPoint(chunk, next, accum, side)
    requires if next[1 - side] < |chunk[1 - side]|
                && NextPoint(chunk, next, accum, 1 - side).size == NextPoint(chunk, next, accum, side).size
             then next'[1 - side] == next[1 - side] + 1 && accum'[1 - side] == NextPoint(chunk, next, accum, 1 - side)
             else next'[1 - side] == next[1 - side] && accum'[1 - side] == accum[1 - side]
    ensures Reading(chunk, next', accum')
    ensures Frontier(accum) <= Frontier(accum') == NextPoint(chunk, next, accum, side).size
  {
    TotalNext(chunk[side], next[side]);
    if next[1 - side] < |chunk[1 - side]| {
      TotalNext(chunk[1 - side], next[1 - side]);
    }
  }

  /** Reads the next breakpoint of `side`, and that of the other list too where
      it is at the same size. */
  method ReadNext(chunk: seq<seq<FeeFrac>>, next: seq<nat>, accum: seq<FeeFrac>, side: nat)
    returns (cmp: int, next': seq<nat>, accum': seq<FeeFrac>)
    requires Reading(chunk, next, accum) && side < 2 && ComesFirst(chunk, next, accum, side)
    ensures Reading(chunk, next', accum')
    ensures next'[0] + next'[1] > next[0] + next[1]
    ensures Frontier(accum) <= Frontier(accum')
    ensures var s, o, u, v := chunk[side], chunk[1 - side], Frontier(accum) as real, Frontier(accum') as real;
            && (cmp > 0 <==> Height(s, v) > Height(o, v)) && (cmp < 0 <==> Height(s, v) < Height(o, v))
            && EndsDecide(s, o, u, v) && EndsDecide(o, s, u, v)
  {
    next', accum' := next, accum;
    var p := NextPoint(chunk, next, accum, side);
    var a := accum[1 - side];
    var slopeAp := p.Minus(a);
    if next[0] == |chunk[0]| || next[1] == |chunk[1]| {
      cmp := FeerateCompare(slopeAp, FeeFrac(0, 1));
    } else {
      var b := NextPoint(chunk, next, accum, 1 - side);
      assert b.Minus(a) == chunk[1 - side][next[1 - side]];
      cmp := FeerateCompare(slopeAp, b.Minus(a));
      if b.size == p.size {
        accum' := accum'[1 - side := b];
        next' := next'[1 - side := next'[1 - side] + 1];
      }
    }
    accum' := accum'[side := p];
    next' := next'[side := next'[side] + 1];
    Turn(chunk, next, accum, side, cmp);
    Advance(chunk, next, accum, side, next', accum');
  }

  /** Compares two feerate diagrams: 1 where the first is better somewhere and
      worse nowhere, -1 for the reverse, 0 where they are equal, and `None`
      where each is better somewhere. */
  method CompareChunks(chunks0: seq<FeeFrac>, chunks1: seq<FeeFrac>) returns (r: Option<int>)
    requires Positive(chunks0) && Positive(chunks1)
    ensures r == Verdict(chunks0, chunks1)
  {
    var chunk := [chunks0, chunks1];
    var next: seq<nat> := [0, 0];
    var accum := [ZERO, ZERO];
    var better := [false, false];
    assert chunks0[..0] == [] && chunks1[..0] == [];
    while next[0] < |chunks0| || next[1] < |chunks1|
      invariant chunk == [chunks0, chunks1] && Reading(chunk, next, accum)
      invariant |better| == 2 && !(better[0] && better[1])
      invariant FlagsUpTo(chunks0, chunks1, better, Frontier(accum) as real)
      decreases |chunks0| + |chunks1| - next[0] - next[1]
    {
      var done0 := next[0] == |chunks0|;
      var done1 := next[1] == |chunks1|;
      var side: nat := if done0 || done1 then (if done0 then 1 else 0)
        else if NextPoint(chunk, next, accum, 0).size > NextPoint(chunk, next, accum, 1).size then 1 else 0;
      ghost var before, from := better, Frontier(accum);
      var cmp;
      cmp, next, accum := ReadNext(chunk, next, accum, side);
      if cmp > 0 {
        better := better[side := true];
      }
      if cmp < 0 {
        better := better[1 - side := true];
      }
      FlagsOnward(chunks0, chunks1, before, better, from as real, Frontier(accum) as real);
      if better[0] && better[1] {
        return None;
      }
    }
    assert chunk[0][..next[0]] == chunks0 && chunk[1][..next[1]] == chunks1;
    FlagsAtEnd(chunks0, chunks1, better, Frontier(accum));
    r := Some((if better[0] then 1 else 0) - (if better[1] then 1 else 0));
  }

  function Negated(r: Option<int>): Option<int> {
    match r
    case None => None
    case Some(x) => Some(-x)
  }

  lemma VerdictOfSwapped(a: seq<FeeFrac>, b: seq<FeeFrac>)
    requires Positive(a) && Positive(b)
    ensures Verdict(b, a) == Negated(Verdict(a, b))
  {
  }

  /** For the sorted chunks of two orders of one cluster, the verdict is never
      -1 or `None` exactly where the first gains at least as much as the second
      along every slope. */
  lemma VerdictOfDominating(a: seq<FeeFrac>, b: seq<FeeFrac>)
    requires Positive(a) && Positive(b) && Sorted(a) && Sorted(b) && Total(a) == Total(b)
    ensures Verdict(a, b) in {Some(0), Some(1)} <==> Dominates(a, b)
  {
    AboveIffDominates(a, b);
    assert Above(a, b) <==> !Better(b, a);
  }
}
