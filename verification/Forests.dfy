/** The chunks of a spanning forest and their feerate diagram, and what the
    merge loops keep of it. A chunk is named by its index. */
module Forests {
  import opened Clusters
  import opened FeeRates
  import opened Trees

  type Forest = map<nat, Tree>

  /** The chunks are disjoint trees of transactions of `g`, whose edges are
      dependencies. */
  ghost predicate ValidForest(g: Cluster, t: Forest) {
    && ValidCluster(g)
    && (forall k :: k in t ==> ValidTree(t[k]) && t[k].txs <= g.txs)
    && (forall j, k :: j in t && k in t && j != k ==> t[j].txs !! t[k].txs)
    && forall k, d :: k in t && d in t[k].tops ==> d.parent in g.parents[d.child]
  }

  /** What only depends on which transactions are in which chunk. */
  ghost predicate Chunked(g: Cluster, t: Forest) {
    && ValidCluster(g)
    && (forall k :: k in t ==> t[k].txs != {} && t[k].txs <= g.txs)
    && forall j, k :: j in t && k in t && j != k ==> t[j].txs !! t[k].txs
  }

  ghost function RateOf(g: Cluster, t: Forest, k: nat): (r: FeeFrac)
    requires Chunked(g, t) && k in t
    ensures r.size > 0
  {
    RatePositive(g, t[k].txs);
    Rate(g, t[k].txs)
  }

  ghost predicate DependsOn(g: Cluster, t: Forest, x: nat, y: nat)
    requires Chunked(g, t) && x in t && y in t
  {
    Needs(g, t[x].txs, t[y].txs)
  }

  /** Every chunk that another one depends on has the higher feerate. */
  ghost predicate TopologicalIn(g: Cluster, t: Forest, S: set<nat>)
    requires Chunked(g, t) && S <= t.Keys
  {
    forall x, y {:trigger DependsOn(g, t, x, y)} ::
      x in S && y in S && x != y && DependsOn(g, t, x, y) ==> Below(RateOf(g, t, x), RateOf(g, t, y))
  }

  ghost predicate Topological(g: Cluster, t: Forest)
    requires Chunked(g, t)
  {
    TopologicalIn(g, t, t.Keys)
  }

  /** The gain of the chunks in `S` along a slope. */
  ghost function GainOver(g: Cluster, t: Forest, S: set<nat>, slope: FeeFrac): (r: int)
    requires Chunked(g, t) && S <= t.Keys
    ensures r >= 0
    decreases |S|
  {
    if S == {} then 0 else
      var k :| k in S;
      Pos(Cross(RateOf(g, t, k), slope)) + GainOver(g, t, S - {k}, slope)
  }

  /** How far the chunks in `S` together are above the line of a slope. */
  ghost function NetOver(g: Cluster, t: Forest, S: set<nat>, slope: FeeFrac): int
    requires Chunked(g, t) && S <= t.Keys
    decreases |S|
  {
    if S == {} then 0 else
      var k :| k in S;
      Cross(RateOf(g, t, k), slope) + NetOver(g, t, S - {k}, slope)
  }

  lemma {:induction false} GainTake(g: Cluster, t: Forest, S: set<nat>, slope: FeeFrac, k: nat)
    requires Chunked(g, t) && S <= t.Keys && k in S
    ensures GainOver(g, t, S, slope) == Pos(Cross(RateOf(g, t, k), slope)) + GainOver(g, t, S - {k}, slope)
    ensures NetOver(g, t, S, slope) == Cross(RateOf(g, t, k), slope) + NetOver(g, t, S - {k}, slope)
    decreases |S|
  {
    var i :| i in S && GainOver(g, t, S, slope)
                    == Pos(Cross(RateOf(g, t, i), slope)) + GainOver(g, t, S - {i}, slope);
    if i != k {
      GainTake(g, t, S - {i}, slope, k);
      GainTake(g, t, S - {k}, slope, i);
      assert S - {i} - {k} == S - {k} - {i};
    }
    NetTake(g, t, S, slope, k);
  }

  lemma {:induction false} NetTake(g: Cluster, t: Forest, S: set<nat>, slope: FeeFrac, k: nat)
    requires Chunked(g, t) && S <= t.Keys && k in S
    ensures NetOver(g, t, S, slope) == Cross(RateOf(g, t, k), slope) + NetOver(g, t, S - {k}, slope)
    decreases |S|
  {
    var i :| i in S && NetOver(g, t, S, slope) == Cross(RateOf(g, t, i), slope) + NetOver(g, t, S - {i}, slope);
    if i != k {
      NetTake(g, t, S - {i}, slope, k);
      NetTake(g, t, S - {k}, slope, i);
      assert S - {i} - {k} == S - {k} - {i};
    }
  }

  ghost predicate SameChunks(t: Forest, t': Forest, S: set<nat>) {
    S <= t.Keys && S <= t'.Keys && forall k :: k in S ==> t[k].txs == t'[k].txs
  }

  lemma SameRate(g: Cluster, t: Forest, t': Forest, k: nat)
    requires Chunked(g, t) && Chunked(g, t') && k in t && k in t' && t[k].txs == t'[k].txs
    ensures RateOf(g, t, k) == RateOf(g, t', k)
  {
  }

  /** Only the transactions of the chunks in `S` matter. */
  lemma SameTaken(g: Cluster, t: Forest, t': Forest, S: set<nat>, slope: FeeFrac, k: nat)
    requires Chunked(g, t) && Chunked(g, t') && SameChunks(t, t', S) && k in S
    ensures GainOver(g, t, S, slope) - GainOver(g, t, S - {k}, slope)
         == GainOver(g, t', S, slope) - GainOver(g, t', S - {k}, slope)
    ensures NetOver(g, t, S, slope) - NetOver(g, t, S - {k}, slope)
         == NetOver(g, t', S, slope) - NetOver(g, t', S - {k}, slope)
  {
    SameRate(g, t, t', k);
    GainTake(g, t, S, slope, k);
    GainTake(g, t', S, slope, k);
  }

  lemma GainCongruent(g: Cluster, t: Forest, t': Forest, S: set<nat>, slope: FeeFrac)
    requires Chunked(g, t) && Chunked(g, t') && SameChunks(t, t', S)
    ensures GainOver(g, t, S, slope) == GainOver(g, t', S, slope)
    ensures NetOver(g, t, S, slope) == NetOver(g, t', S, slope)
  {
    SameGains(g, t, t', S, slope);
    SameNets(g, t, t', S, slope);
  }

  lemma {:induction false} SameGains(g: Cluster, t: Forest, t': Forest, S: set<nat>, slope: FeeFrac)
    requires Chunked(g, t) && Chunked(g, t') && SameChunks(t, t', S)
    ensures GainOver(g, t, S, slope) == GainOver(g, t', S, slope)
    decreases |S|
  {
    if S != {} {
      var k :| k in S;
      SameGains(g, t, t', S - {k}, slope);
      SameTaken(g, t, t', S, slope, k);
    }
  }

  lemma {:induction false} SameNets(g: Cluster, t: Forest, t': Forest, S: set<nat>, slope: FeeFrac)
    requires Chunked(g, t) && Chunked(g, t') && SameChunks(t, t', S)
    ensures NetOver(g, t, S, slope) == NetOver(g, t', S, slope)
    decreases |S|
  {
    if S != {} {
      var k :| k in S;
      SameNets(g, t, t', S - {k}, slope);
      SameTaken(g, t, t', S, slope, k);
    }
  }

  lemma {:induction false} NetAtMostGain(g: Cluster, t: Forest, S: set<nat>, slope: FeeFrac)
    requires Chunked(g, t) && S <= t.Keys
    ensures NetOver(g, t, S, slope) <= GainOver(g, t, S, slope)
    decreases |S|
  {
    if S != {} {
      var k :| k in S;
      GainTake(g, t, S, slope, k);
      NetAtMostGain(g, t, S - {k}, slope);
    }
  }

  /** In the mirror, a chunk gains what it loses here. */
  lemma {:induction false} MirrorGain(g: Cluster, t: Forest, S: set<nat>, slope: FeeFrac)
    requires Chunked(g, t) && S <= t.Keys
    ensures Chunked(Mirror(g), t)
    ensures GainOver(Mirror(g), t, S, slope.Neg()) == GainOver(g, t, S, slope) - NetOver(g, t, S, slope)
    ensures NetOver(Mirror(g), t, S, slope.Neg()) == -NetOver(g, t, S, slope)
    decreases |S|
  {
    MirrorValid(g);
    if S != {} {
      var k :| k in S;
      GainTake(g, t, S, slope, k);
      GainTake(Mirror(g), t, S, slope.Neg(), k);
      MirrorGain(g, t, S - {k}, slope);
      MirrorRate(g, t[k].txs);
      CrossNeg(RateOf(g, t, k), slope);
    }
  }

  /** `t'` is `t` with the trees `top` and `bottom` joined along `d`. */
  ghost predicate Joined(t: Forest, top: nat, bottom: nat, d: Dep, t': Forest) {
    && top in t && bottom in t && top != bottom && Joinable(t[top], t[bottom], d)
    && t' == (t - {top})[bottom := Join(t[top], t[bottom], d)]
  }

  /** `t'` is `t` with the tree `k` split along `d`, the top part at `top`. */
  ghost predicate Parted(t: Forest, k: nat, d: Dep, top: nat, t': Forest) {
    && k in t && d in t[k].tops && top !in t
    && t' == t[k := Split(t[k], d).1][top := Split(t[k], d).0]
  }

  // --- merging ---

  /** `t'` is `t` with the chunks `m` and `y` merged into the chunk `r`. */
  ghost predicate Merged(g: Cluster, t: Forest, m: nat, y: nat, t': Forest, r: nat) {
    && Chunked(g, t) && m in t && y in t && m != y && (r == m || r == y)
    && t'.Keys == t.Keys - {m, y} + {r}
    && t'[r].txs == t[m].txs + t[y].txs
    && forall k :: k in t' && k != r ==> t'[k] == t[k]
  }

  lemma JoinedIsMerged(g: Cluster, t: Forest, top: nat, bottom: nat, d: Dep, t': Forest)
    requires Chunked(g, t) && Joined(t, top, bottom, d, t')
    ensures Merged(g, t, top, bottom, t', bottom) && Merged(g, t, bottom, top, t', bottom)
  {
    assert t[bottom].txs + t[top].txs == t[top].txs + t[bottom].txs;
  }

  lemma MergedChunked(g: Cluster, t: Forest, m: nat, y: nat, t': Forest, r: nat)
    requires Merged(g, t, m, y, t', r)
    ensures Chunked(g, t')
    ensures RateOf(g, t', r) == RateOf(g, t, m).Plus(RateOf(g, t, y))
    ensures forall k :: k in t' && k != r ==> RateOf(g, t', k) == RateOf(g, t, k)
  {
    RateUnion(g, t[m].txs, t[y].txs);
  }

  lemma MergedDepends(g: Cluster, t: Forest, m: nat, y: nat, t': Forest, r: nat, k: nat)
    requires Merged(g, t, m, y, t', r) && Chunked(g, t') && k in t' && k != r
    ensures k in t && k != m && k != y && RateOf(g, t', k) == RateOf(g, t, k)
    ensures DependsOn(g, t', r, k) <==> DependsOn(g, t, m, k) || DependsOn(g, t, y, k)
    ensures DependsOn(g, t', k, r) <==> DependsOn(g, t, k, m) || DependsOn(g, t, k, y)
  {
    NeedsUnion(g, t[m].txs, t[y].txs, t[k].txs);
  }

  lemma MergedApart(g: Cluster, t: Forest, m: nat, y: nat, t': Forest, r: nat, x: nat, z: nat)
    requires Merged(g, t, m, y, t', r) && Chunked(g, t') && x in t' && x != r && z in t' && z != r
    ensures x in t && x != m && x != y && z in t && z != m && z != y
    ensures DependsOn(g, t', x, z) <==> DependsOn(g, t, x, z)
    ensures RateOf(g, t', x) == RateOf(g, t, x)
  {
  }

  lemma MergedOthers(g: Cluster, t: Forest, m: nat, y: nat, t': Forest, r: nat, S: set<nat>)
    requires Merged(g, t, m, y, t', r) && S <= t.Keys && m !in S && y !in S
    ensures SameChunks(t, t', S)
  {
  }

  /** Within `S`, what `m` depends on is at or above `rho`. */
  ghost predicate AboveFrom(g: Cluster, t: Forest, S: set<nat>, m: nat, rho: FeeFrac)
    requires Chunked(g, t) && S <= t.Keys && m in S
  {
    forall y {:trigger DependsOn(g, t, m, y)} ::
      y in S && y != m && DependsOn(g, t, m, y) ==> AtMost(rho, RateOf(g, t, y))
  }

  /** Within `S`, what depends on `m` is below `rho`. */
  ghost predicate BelowFrom(g: Cluster, t: Forest, S: set<nat>, m: nat, rho: FeeFrac)
    requires Chunked(g, t) && S <= t.Keys && m in S
  {
    forall x {:trigger DependsOn(g, t, x, m)} ::
      x in S && x != m && DependsOn(g, t, x, m) ==> Below(RateOf(g, t, x), rho)
  }

  /** `m` depends on nothing outside of `S`, and only what is below `floor`
      does. */
  ghost predicate Outside(g: Cluster, t: Forest, S: set<nat>, m: nat, floor: FeeFrac)
    requires Chunked(g, t) && S <= t.Keys && m in S
  {
    && (forall z {:trigger DependsOn(g, t, m, z)} :: z in t && z !in S ==> !DependsOn(g, t, m, z))
    && forall x, z {:trigger DependsOn(g, t, x, z)} ::
         x in S && x != m && z in t && z !in S && DependsOn(g, t, x, z) ==> Below(RateOf(g, t, x), floor)
  }

  /** `floor`, `rho` and the feerate `f` of the climbing chunk, in order. */
  ghost predicate Levels(floor: FeeFrac, rho: FeeFrac, f: FeeFrac) {
    && (rho == BOTTOM || rho.size > 0) && (floor == BOTTOM || floor.size > 0) && (rho == BOTTOM ==> floor == BOTTOM)
    && f.size > 0
    && AtMost(floor, rho) && AtMost(rho, f) && Below(floor, f)
  }

  /** A chunk `m` on its way up: it has been merging with the lowest-feerate
      chunk that it depends on, `rho` last, among those at or below its own.
      All other dependencies within `S` are strict, and `m` depends on nothing
      outside of it. `floor` is a feerate that no chunk it can still reach is
      below. */
  ghost predicate Climbing(g: Cluster, t: Forest, S: set<nat>, m: nat, rho: FeeFrac, floor: FeeFrac) {
    && Chunked(g, t) && S <= t.Keys && m in S
    && TopologicalIn(g, t, S - {m})
    && AboveFrom(g, t, S, m, rho) && BelowFrom(g, t, S, m, rho)
    && Outside(g, t, S, m, floor)
    && Levels(floor, rho, RateOf(g, t, m))
  }

  /** `y` is the chunk to merge `m` with. */
  ghost predicate MergeCandidate(g: Cluster, t: Forest, m: nat, y: nat)
    requires Chunked(g, t) && m in t
  {
    && y in t && y != m && DependsOn(g, t, m, y) && AtMost(RateOf(g, t, y), RateOf(g, t, m))
    && forall z {:trigger DependsOn(g, t, m, z)} ::
         z in t && z != m && DependsOn(g, t, m, z) ==> AtMost(RateOf(g, t, y), RateOf(g, t, z))
  }

  /** `m` depends on nothing at or below it. */
  ghost predicate AtRest(g: Cluster, t: Forest, m: nat)
    requires Chunked(g, t) && m in t
  {
    forall z {:trigger DependsOn(g, t, m, z)} ::
      z in t && z != m && DependsOn(g, t, m, z) ==> Below(RateOf(g, t, m), RateOf(g, t, z))
  }
}
