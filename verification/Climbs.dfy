/** What a run of upward merges keeps: strict dependencies among all the other
    chunks, and the feerate diagram. */
module Climbs {
  import opened Clusters
  import opened FeeRates
  import opened Forests

  ghost function After(S: set<nat>, m: nat, y: nat, r: nat): set<nat> {
    S - {m, y} + {r}
  }

  /** What is known of the chunk picked next. */
  lemma Picked(g: Cluster, t: Forest, S: set<nat>, m: nat, rho: FeeFrac, floor: FeeFrac, y: nat)
    requires Climbing(g, t, S, m, rho, floor) && MergeCandidate(g, t, m, y)
    ensures y in S && AtMost(rho, RateOf(g, t, y)) && AtMost(floor, RateOf(g, t, y))
  {
    if rho.size > 0 {
      Chain(floor, rho, RateOf(g, t, y));
    }
  }

  lemma LevelsClimb(g: Cluster, t: Forest, S: set<nat>, m: nat, rho: FeeFrac, floor: FeeFrac, y: nat, t': Forest,
                    r: nat)
    requires Climbing(g, t, S, m, rho, floor) && MergeCandidate(g, t, m, y) && Merged(g, t, m, y, t', r)
    ensures Chunked(g, t') && Levels(floor, RateOf(g, t, y), RateOf(g, t', r))
  {
    Picked(g, t, S, m, rho, floor, y);
    MergedChunked(g, t, m, y, t', r);
    MergedRate(RateOf(g, t, m), RateOf(g, t, y), floor);
  }

  lemma AboveAt(g: Cluster, t: Forest, S: set<nat>, m: nat, y: nat, z: nat)
    requires Chunked(g, t) && S <= t.Keys && m in S && y in S && z in S && z != m && z != y
    requires MergeCandidate(g, t, m, y) && TopologicalIn(g, t, S - {m})
    requires DependsOn(g, t, m, z) || DependsOn(g, t, y, z)
    ensures AtMost(RateOf(g, t, y), RateOf(g, t, z))
  {
    if !DependsOn(g, t, m, z) {
      NotBoth(RateOf(g, t, y), RateOf(g, t, z));
    }
  }

  /** What the merged chunk depends on is not below the picked feerate. */
  lemma AboveClimbs(g: Cluster, t: Forest, S: set<nat>, m: nat, y: nat, t': Forest, r: nat)
    requires Merged(g, t, m, y, t', r) && Chunked(g, t') && S <= t.Keys && m in S && y in S
    requires MergeCandidate(g, t, m, y) && TopologicalIn(g, t, S - {m})
    ensures After(S, m, y, r) <= t'.Keys && AboveFrom(g, t', After(S, m, y, r), r, RateOf(g, t, y))
  {
    forall z | z in After(S, m, y, r) && z != r && DependsOn(g, t', r, z)
      ensures AtMost(RateOf(g, t, y), RateOf(g, t', z))
    {
      MergedDepends(g, t, m, y, t', r, z);
      AboveAt(g, t, S, m, y, z);
    }
  }

  lemma BelowAt(g: Cluster, t: Forest, S: set<nat>, m: nat, rho: FeeFrac, y: nat, x: nat)
    requires Chunked(g, t) && S <= t.Keys && m in S && y in S && x in S && x != m && x != y && y != m
    requires TopologicalIn(g, t, S - {m}) && BelowFrom(g, t, S, m, rho)
    requires (rho == BOTTOM || rho.size > 0) && AtMost(rho, RateOf(g, t, y))
    requires DependsOn(g, t, x, m) || DependsOn(g, t, x, y)
    ensures Below(RateOf(g, t, x), RateOf(g, t, y))
  {
    if DependsOn(g, t, x, m) {
      BelowThenAtMost(RateOf(g, t, x), rho, RateOf(g, t, y));
    }
  }

  /** What depends on the merged chunk is below the picked feerate. */
  lemma BelowClimbs(g: Cluster, t: Forest, S: set<nat>, m: nat, rho: FeeFrac, y: nat, t': Forest, r: nat)
    requires Merged(g, t, m, y, t', r) && Chunked(g, t') && S <= t.Keys && m in S && y in S
    requires TopologicalIn(g, t, S - {m}) && BelowFrom(g, t, S, m, rho)
    requires (rho == BOTTOM || rho.size > 0) && AtMost(rho, RateOf(g, t, y))
    ensures After(S, m, y, r) <= t'.Keys && BelowFrom(g, t', After(S, m, y, r), r, RateOf(g, t, y))
  {
    forall x | x in After(S, m, y, r) && x != r && DependsOn(g, t', x, r)
      ensures Below(RateOf(g, t', x), RateOf(g, t, y))
    {
      MergedDepends(g, t, m, y, t', r, x);
      BelowAt(g, t, S, m, rho, y, x);
    }
  }

  lemma BelowThenAtMost(a: FeeFrac, b: FeeFrac, c: FeeFrac)
    requires a.size > 0 && c.size > 0 && (b == BOTTOM || b.size > 0)
    requires Below(a, b) && AtMost(b, c)
    ensures Below(a, c)
  {
    if b.size > 0 {
      NotBoth(a, b);
      Chain(a, b, c);
    }
  }

  lemma OutsideClimbs(g: Cluster, t: Forest, S: set<nat>, m: nat, floor: FeeFrac, y: nat, t': Forest, r: nat)
    requires Merged(g, t, m, y, t', r) && Chunked(g, t') && S <= t.Keys && m in S && y in S
    requires Outside(g, t, S, m, floor) && AtMost(floor, RateOf(g, t, y))
    ensures After(S, m, y, r) <= t'.Keys && Outside(g, t', After(S, m, y, r), r, floor)
  {
    NotBoth(RateOf(g, t, y), floor);
    var S' := After(S, m, y, r);
    forall z | z in t' && z !in S'
      ensures !DependsOn(g, t', r, z)
    {
      MergedDepends(g, t, m, y, t', r, z);
    }
    forall x, z | x in S' && x != r && z in t' && z !in S' && DependsOn(g, t', x, z)
      ensures Below(RateOf(g, t', x), floor)
    {
      MergedApart(g, t, m, y, t', r, x, z);
    }
  }

  lemma StillTopological(g: Cluster, t: Forest, S: set<nat>, m: nat, y: nat, t': Forest, r: nat)
    requires Merged(g, t, m, y, t', r) && Chunked(g, t') && S <= t.Keys && TopologicalIn(g, t, S - {m})
    ensures After(S, m, y, r) <= t'.Keys && TopologicalIn(g, t', After(S, m, y, r) - {r})
  {
    forall x, z | x in After(S, m, y, r) - {r} && z in After(S, m, y, r) - {r} && x != z && DependsOn(g, t', x, z)
      ensures Below(RateOf(g, t', x), RateOf(g, t', z))
    {
      MergedApart(g, t, m, y, t', r, x, z);
      MergedApart(g, t, m, y, t', r, z, x);
    }
  }

  /** One upward merge. */
  lemma ClimbStep(g: Cluster, t: Forest, S: set<nat>, m: nat, rho: FeeFrac, floor: FeeFrac, y: nat, t': Forest, r: nat)
    requires Climbing(g, t, S, m, rho, floor) && MergeCandidate(g, t, m, y) && Merged(g, t, m, y, t', r)
    ensures Climbing(g, t', After(S, m, y, r), r, RateOf(g, t, y), floor)
  {
    LevelsClimb(g, t, S, m, rho, floor, y, t', r);
    Picked(g, t, S, m, rho, floor, y);
    StillTopological(g, t, S, m, y, t', r);
    AboveClimbs(g, t, S, m, y, t', r);
    BelowClimbs(g, t, S, m, rho, y, t', r);
    OutsideClimbs(g, t, S, m, floor, y, t', r);
  }

  /** At rest, every dependency within `S` is strict. */
  lemma ClimbEnd(g: Cluster, t: Forest, S: set<nat>, m: nat, rho: FeeFrac, floor: FeeFrac)
    requires Climbing(g, t, S, m, rho, floor) && AtRest(g, t, m)
    ensures TopologicalIn(g, t, S)
  {
    forall x, z | x in S && z in S && x != z && DependsOn(g, t, x, z)
      ensures Below(RateOf(g, t, x), RateOf(g, t, z))
    {
      if z == m {
        BelowThenAtMost(RateOf(g, t, x), rho, RateOf(g, t, m));
      }
    }
  }

  // --- the diagram ---

  /** Along one slope: what the chunks in `S`, of which `m` has been absorbing
      others, are worth, next to what they were worth in `t0` without `m0`. */
  ghost predicate KeepsAlong(g: Cluster, t: Forest, S: set<nat>, m: nat, rho: FeeFrac, floor: FeeFrac,
                             t0: Forest, S0: set<nat>, m0: nat, slope: FeeFrac)
    requires Chunked(g, t) && S <= t.Keys && m in S && Chunked(g, t0) && S0 <= t0.Keys && m0 in S0
  {
    var v, v0 := Cross(RateOf(g, t, m), slope), Cross(RateOf(g, t0, m0), slope);
    var rest, rest0 := GainOver(g, t, S - {m}, slope), GainOver(g, t0, S0 - {m0}, slope);
    && Pos(v) + rest >= rest0
    && (Cross(rho, slope) <= 0 ==> rest >= rest0)
    && (Cross(floor, slope) >= 0 ==> v + rest >= v0 + rest0)
    && NetOver(g, t, S, slope) == NetOver(g, t0, S0, slope)
  }

  ghost predicate Keeps(g: Cluster, t: Forest, S: set<nat>, m: nat, rho: FeeFrac, floor: FeeFrac,
                        t0: Forest, S0: set<nat>, m0: nat)
    requires Chunked(g, t) && S <= t.Keys && m in S && Chunked(g, t0) && S0 <= t0.Keys && m0 in S0
  {
    forall slope: FeeFrac :: slope.size > 0 ==> KeepsAlong(g, t, S, m, rho, floor, t0, S0, m0, slope)
  }

  lemma KeepsStart(g: Cluster, t: Forest, S: set<nat>, m: nat, rho: FeeFrac, floor: FeeFrac)
    requires Chunked(g, t) && S <= t.Keys && m in S
    ensures Keeps(g, t, S, m, rho, floor, t, S, m)
  {
  }

  lemma MergedGain(g: Cluster, t: Forest, S: set<nat>, m: nat, y: nat, t': Forest, r: nat, slope: FeeFrac)
    requires Merged(g, t, m, y, t', r) && Chunked(g, t') && S <= t.Keys && m in S && y in S
    ensures After(S, m, y, r) <= t'.Keys
    ensures GainOver(g, t', After(S, m, y, r) - {r}, slope)
         == GainOver(g, t, S - {m}, slope) - Pos(Cross(RateOf(g, t, y), slope))
    ensures NetOver(g, t', After(S, m, y, r) - {r}, slope)
         == NetOver(g, t, S - {m}, slope) - Cross(RateOf(g, t, y), slope)
  {
    var rest := S - {m} - {y};
    assert After(S, m, y, r) - {r} == rest;
    MergedOthers(g, t, m, y, t', r, rest);
    GainTake(g, t, S - {m}, slope, y);
    GainCongruent(g, t, t', rest, slope);
  }

  /** One upward merge loses nothing. */
  lemma KeepsStep(g: Cluster, t: Forest, S: set<nat>, m: nat, rho: FeeFrac, floor: FeeFrac, y: nat,
                  t': Forest, r: nat, t0: Forest, S0: set<nat>, m0: nat)
    requires Climbing(g, t, S, m, rho, floor) && MergeCandidate(g, t, m, y) && Merged(g, t, m, y, t', r)
    requires Chunked(g, t0) && S0 <= t0.Keys && m0 in S0 && Keeps(g, t, S, m, rho, floor, t0, S0, m0)
    ensures Chunked(g, t') && After(S, m, y, r) <= t'.Keys
    ensures Keeps(g, t', After(S, m, y, r), r, RateOf(g, t, y), floor, t0, S0, m0)
  {
    MergedChunked(g, t, m, y, t', r);
    Picked(g, t, S, m, rho, floor, y);
    forall slope: FeeFrac | slope.size > 0
      ensures KeepsAlong(g, t', After(S, m, y, r), r, RateOf(g, t, y), floor, t0, S0, m0, slope)
    {
      KeepsStepAlong(g, t, S, m, rho, floor, y, t', r, t0, S0, m0, slope);
    }
  }

  lemma KeepsStepAlong(g: Cluster, t: Forest, S: set<nat>, m: nat, rho: FeeFrac, floor: FeeFrac, y: nat,
                       t': Forest, r: nat, t0: Forest, S0: set<nat>, m0: nat, slope: FeeFrac)
    requires Merged(g, t, m, y, t', r) && slope.size > 0
    requires S <= t.Keys && m in S && y in S
    requires rho == BOTTOM || rho.size > 0
    requires floor == BOTTOM || floor.size > 0
    requires AtMost(rho, RateOf(g, t, y)) && AtMost(floor, RateOf(g, t, y)) && AtMost(RateOf(g, t, y), RateOf(g, t, m))
    requires Chunked(g, t0) && S0 <= t0.Keys && m0 in S0 && KeepsAlong(g, t, S, m, rho, floor, t0, S0, m0, slope)
    ensures Chunked(g, t') && After(S, m, y, r) <= t'.Keys
    ensures KeepsAlong(g, t', After(S, m, y, r), r, RateOf(g, t, y), floor, t0, S0, m0, slope)
  {
    MergedChunked(g, t, m, y, t', r);
    var S', fm, fy := After(S, m, y, r), RateOf(g, t, m), RateOf(g, t, y);
    assert NetOver(g, t', S', slope) == NetOver(g, t, S, slope) by {
      MergedGain(g, t, S, m, y, t', r, slope);
      GainTake(g, t, S, slope, m);
      GainTake(g, t', S', slope, r);
      CrossPlus(fm, fy, slope);
    }
    MergedGain(g, t, S, m, y, t', r, slope);
    AbsorbStep(fm, fy, rho, slope, GainOver(g, t, S - {m}, slope), GainOver(g, t0, S0 - {m0}, slope));
    AlongFloor(fm, fy, floor, slope);
  }

  /** Above the floor, a part is worth what it adds. */
  lemma AlongFloor(fm: FeeFrac, fy: FeeFrac, floor: FeeFrac, slope: FeeFrac)
    requires fy.size > 0 && slope.size > 0 && (floor == BOTTOM || floor.size > 0) && AtMost(floor, fy)
    ensures Cross(floor, slope) >= 0 ==>
              Cross(fm.Plus(fy), slope) == Cross(fm, slope) + Pos(Cross(fy, slope))
  {
    CrossPlus(fm, fy, slope);
    if Cross(floor, slope) >= 0 && floor.size > 0 {
      CrossFlip(fy, floor);
      CrossTrans(fy, floor, slope);
    }
  }
}
