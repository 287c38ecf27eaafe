/** Splitting a chunk and merging again: what one improvement does. */
module Improving {
  import opened Climbs
  import opened Clusters
  import opened FeeRates
  import opened Forests
  import opened Trees

  /** `t1` is `t0` with the chunk `k` cut in two: `a`, a new index, and `k`. */
  ghost predicate Cut(g: Cluster, t0: Forest, k: nat, t1: Forest, a: nat) {
    && Chunked(g, t0) && k in t0 && a !in t0
    && t1.Keys == t0.Keys + {a}
    && t1[a].txs != {} && t1[k].txs != {} && t1[a].txs !! t1[k].txs
    && t1[a].txs + t1[k].txs == t0[k].txs
    && forall i :: i in t0 && i != k ==> t1[i] == t0[i]
  }

  lemma CutChunked(g: Cluster, t0: Forest, k: nat, t1: Forest, a: nat)
    requires Cut(g, t0, k, t1, a)
    ensures Chunked(g, t1)
    ensures RateOf(g, t0, k) == RateOf(g, t1, a).Plus(RateOf(g, t1, k))
  {
    forall i, j | i in t1 && j in t1 && i != j
      ensures t1[i].txs !! t1[j].txs
    {
      assert t1[a].txs <= t0[k].txs && t1[k].txs <= t0[k].txs;
      if i in t0 && j in t0 {
        assert t0[i].txs !! t0[j].txs;
      } else if i in t0 {
        assert i == k || t0[i].txs !! t0[k].txs;
      } else {
        assert j == k || t0[j].txs !! t0[k].txs;
      }
    }
    RateUnion(g, t1[a].txs, t1[k].txs);
  }

  /** What a part of a cut chunk depends on, the chunk does. */
  lemma CutDepends(g: Cluster, t0: Forest, k: nat, t1: Forest, a: nat, z: nat)
    requires Cut(g, t0, k, t1, a) && Chunked(g, t1) && z in t0 && z != k
    ensures RateOf(g, t1, z) == RateOf(g, t0, z)
    ensures DependsOn(g, t0, k, z) <==> DependsOn(g, t1, a, z) || DependsOn(g, t1, k, z)
    ensures DependsOn(g, t0, z, k) <==> DependsOn(g, t1, z, a) || DependsOn(g, t1, z, k)
  {
    NeedsUnion(g, t1[a].txs, t1[k].txs, t0[z].txs);
  }

  lemma CutRates(g: Cluster, t0: Forest, k: nat, t1: Forest, a: nat)
    requires Cut(g, t0, k, t1, a) && Chunked(g, t1) && Below(RateOf(g, t0, k), RateOf(g, t1, a))
    ensures Below(RateOf(g, t1, k), RateOf(g, t0, k))
  {
    CutChunked(g, t0, k, t1, a);
    var c, fa, fb := RateOf(g, t0, k), RateOf(g, t1, a), RateOf(g, t1, k);
    CrossPlus(fa, fb, c);
    CrossPlus(c, c, c);
    CrossFlip(c, fa);
  }

  ghost predicate TopAboveBottom(g: Cluster, t0: Forest, k: nat, t1: Forest, a: nat) {
    && Cut(g, t0, k, t1, a) && Chunked(g, t1) && Topological(g, t0)
    && Below(RateOf(g, t0, k), RateOf(g, t1, a))
    && !DependsOn(g, t1, a, k)
  }

  /** A cut leaves the dependencies of the other chunks strict. */
  lemma StrictBesides(g: Cluster, t0: Forest, k: nat, t1: Forest, a: nat)
    requires Cut(g, t0, k, t1, a) && Chunked(g, t1) && Topological(g, t0)
    ensures TopologicalIn(g, t1, t1.Keys - {k} - {a})
  {
    var S := t1.Keys - {k} - {a};
    forall x, z | x in S && z in S && x != z && DependsOn(g, t1, x, z)
      ensures Below(RateOf(g, t1, x), RateOf(g, t1, z))
    {
      assert DependsOn(g, t0, x, z);
    }
  }

  /** After a cut whose top beats the chunk and does not depend on the bottom,
      the top can climb, past all that is not the bottom. */
  lemma TopClimbs(g: Cluster, t0: Forest, k: nat, t1: Forest, a: nat)
    requires TopAboveBottom(g, t0, k, t1, a)
    ensures Climbing(g, t1, t1.Keys - {k}, a, RateOf(g, t0, k), RateOf(g, t0, k))
  {
    var S, c := t1.Keys - {k}, RateOf(g, t0, k);
    CrossPlus(c, c, c);
    NotBoth(c, RateOf(g, t1, a));
    StrictBesides(g, t0, k, t1, a);
    forall z | z in t0 && z != k
      ensures DependsOn(g, t1, a, z) ==> AtMost(c, RateOf(g, t1, z))
      ensures DependsOn(g, t1, z, a) || DependsOn(g, t1, z, k) ==> Below(RateOf(g, t1, z), c)
    {
      CutDepends(g, t0, k, t1, a, z);
      NotBoth(c, RateOf(g, t0, z));
    }
  }

  /** `t2` is `t1` with some of the chunks in `S1` merged into `m`, one of them
      `m1`. */
  ghost predicate Grown(t1: Forest, S1: set<nat>, m1: nat, t2: Forest, S2: set<nat>, m: nat) {
    && S1 <= t1.Keys && S2 <= t2.Keys && m in S2
    && S2 - {m} <= S1
    && t2.Keys - S2 == t1.Keys - S1
    && (m1 in t2 ==> m1 == m)
    && forall k :: k in t2 && k != m ==> k in t1 && t2[k] == t1[k]
  }

  lemma GrownStart(t: Forest, S: set<nat>, m: nat)
    requires S <= t.Keys && m in S
    ensures Grown(t, S, m, t, S, m)
  {
  }

  lemma GrownStep(g: Cluster, t1: Forest, S1: set<nat>, m1: nat, t: Forest, S: set<nat>, m: nat, y: nat, t': Forest,
                  r: nat)
    requires Grown(t1, S1, m1, t, S, m) && Merged(g, t, m, y, t', r) && y in S
    ensures Grown(t1, S1, m1, t', After(S, m, y, r), r)
  {
    assert t'.Keys - After(S, m, y, r) == t.Keys - S;
  }

  /** What depends on `k` is below `c`, and what it depends on is above. */
  ghost predicate Between(g: Cluster, t: Forest, k: nat, c: FeeFrac)
    requires Chunked(g, t) && k in t
  {
    forall z :: z in t && z != k ==>
      && (DependsOn(g, t, z, k) ==> Below(RateOf(g, t, z), c))
      && (DependsOn(g, t, k, z) ==> Below(c, RateOf(g, t, z)))
  }

  /** `t2` is `t1`, a cut of `t0`, once its top `a` has climbed. */
  ghost predicate Climbed(g: Cluster, t0: Forest, k: nat, t1: Forest, a: nat, t2: Forest, S2: set<nat>, rho: FeeFrac) {
    && TopAboveBottom(g, t0, k, t1, a) && Grown(t1, t1.Keys - {k}, a, t2, S2, a)
    && Climbing(g, t2, S2, a, rho, RateOf(g, t0, k))
  }

  lemma BottomStays(g: Cluster, t0: Forest, k: nat, t1: Forest, a: nat, t2: Forest, S2: set<nat>, rho: FeeFrac)
    requires Climbed(g, t0, k, t1, a, t2, S2, rho)
    ensures k in t2 && k !in S2 && t2.Keys - {k} == S2 && t2[k] == t1[k]
    ensures RateOf(g, t2, k) == RateOf(g, t1, k)
  {
    assert k in t1.Keys - (t1.Keys - {k});
    assert t2.Keys - S2 == {k};
  }

  lemma BottomAt(g: Cluster, t0: Forest, k: nat, t1: Forest, a: nat, t2: Forest, S2: set<nat>, rho: FeeFrac, z: nat)
    requires Climbed(g, t0, k, t1, a, t2, S2, rho) && k in t2 && k !in S2 && t2[k] == t1[k] && z in t2 && z != k
    ensures DependsOn(g, t2, z, k) ==> Below(RateOf(g, t2, z), RateOf(g, t0, k))
    ensures DependsOn(g, t2, k, z) ==> Below(RateOf(g, t0, k), RateOf(g, t2, z))
  {
    if z != a {
      assert z in t0 && t2[z] == t0[z] && t1[z] == t0[z];
      CutDepends(g, t0, k, t1, a, z);
    }
  }

  lemma BottomBetween(g: Cluster, t0: Forest, k: nat, t1: Forest, a: nat, t2: Forest, S2: set<nat>, rho: FeeFrac)
    requires Climbed(g, t0, k, t1, a, t2, S2, rho)
    ensures k in t2 && Between(g, t2, k, RateOf(g, t0, k))
  {
    BottomStays(g, t0, k, t1, a, t2, S2, rho);
    forall z | z in t2 && z != k
      ensures DependsOn(g, t2, z, k) ==> Below(RateOf(g, t2, z), RateOf(g, t0, k))
      ensures DependsOn(g, t2, k, z) ==> Below(RateOf(g, t0, k), RateOf(g, t2, z))
    {
      BottomAt(g, t0, k, t1, a, t2, S2, rho, z);
    }
  }

  /** Where all else is strict, a chunk between its neighbours can sink. */
  lemma SinkStart(g: Cluster, t: Forest, k: nat, c: FeeFrac)
    requires Chunked(g, t) && k in t && TopologicalIn(g, t, t.Keys - {k}) && c.size > 0
    requires Between(g, t, k, c) && Below(RateOf(g, t, k), c)
    ensures Climbing(Mirror(g), t, t.Keys, k, c.Neg(), c.Neg())
  {
    MirrorTopological(g, t, t.Keys - {k});
    forall z | z in t && z != k
      ensures DependsOn(Mirror(g), t, k, z) ==> AtMost(c.Neg(), RateOf(Mirror(g), t, z))
      ensures DependsOn(Mirror(g), t, z, k) ==> Below(RateOf(Mirror(g), t, z), c.Neg())
    {
      MirrorDepends(g, t, z, k);
      NegBelow(RateOf(g, t, z), c);
      NegBelow(c, RateOf(g, t, z));
    }
    MirrorDepends(g, t, k, k);
    NegBelow(RateOf(g, t, k), c);
    NegBelow(c, c);
  }

  lemma NegBelow(a: FeeFrac, b: FeeFrac)
    ensures Below(a, b) ==> Below(b.Neg(), a.Neg())
    ensures Below(a, b) ==> AtMost(b.Neg(), a.Neg())
    ensures AtMost(a.Neg(), a.Neg())
  {
    CrossNeg(b, a);
    CrossFlip(a, b);
    CrossFlip(a.Neg(), a.Neg());
  }

  /** Once the top is at rest, the bottom can sink, past everything. */
  lemma BottomSinks(g: Cluster, t0: Forest, k: nat, t1: Forest, a: nat, t2: Forest, S2: set<nat>, rho: FeeFrac)
    requires Climbed(g, t0, k, t1, a, t2, S2, rho) && AtRest(g, t2, a)
    ensures Chunked(Mirror(g), t2) && k in t2
    ensures Climbing(Mirror(g), t2, t2.Keys, k, RateOf(g, t0, k).Neg(), RateOf(g, t0, k).Neg())
  {
    var c := RateOf(g, t0, k);
    BottomStays(g, t0, k, t1, a, t2, S2, rho);
    BottomBetween(g, t0, k, t1, a, t2, S2, rho);
    CutRates(g, t0, k, t1, a);
    ClimbEnd(g, t2, S2, a, rho, c);
    SinkStart(g, t2, k, c);
  }

  lemma MirrorChunked(g: Cluster, t: Forest)
    requires Chunked(g, t)
    ensures Chunked(Mirror(g), t)
  {
    MirrorValid(g);
  }

  lemma MirrorDepends(g: Cluster, t: Forest, x: nat, y: nat)
    requires Chunked(g, t) && x in t && y in t
    ensures Chunked(Mirror(g), t)
    ensures DependsOn(Mirror(g), t, x, y) <==> DependsOn(g, t, y, x)
    ensures DependsOn(Mirror(g), t, y, x) <==> DependsOn(g, t, x, y)
    ensures RateOf(Mirror(g), t, x) == RateOf(g, t, x).Neg() && RateOf(Mirror(g), t, y) == RateOf(g, t, y).Neg()
  {
    MirrorNeeds(g, t[x].txs, t[y].txs);
    MirrorNeeds(g, t[y].txs, t[x].txs);
    MirrorRate(g, t[x].txs);
    MirrorRate(g, t[y].txs);
  }

  lemma MirrorTopological(g: Cluster, t: Forest, S: set<nat>)
    requires Chunked(g, t) && S <= t.Keys
    ensures Chunked(Mirror(g), t) && (TopologicalIn(Mirror(g), t, S) <==> TopologicalIn(g, t, S))
  {
    MirrorChunked(g, t);
    forall x, y | x in S && y in S
      ensures DependsOn(Mirror(g), t, x, y) <==> DependsOn(g, t, y, x)
      ensures Below(RateOf(Mirror(g), t, x), RateOf(Mirror(g), t, y)) <==> Below(RateOf(g, t, y), RateOf(g, t, x))
    {
      MirrorDepends(g, t, x, y);
      CrossNeg(RateOf(g, t, x), RateOf(g, t, y));
      CrossFlip(RateOf(g, t, x), RateOf(g, t, y));
    }
  }

  /** No slope along which `t` gains less than `t0`. */
  ghost predicate NoWorse(g: Cluster, t: Forest, t0: Forest)
    requires Chunked(g, t) && Chunked(g, t0)
  {
    forall slope: FeeFrac :: slope.size > 0 ==> NoWorseAlong(g, t, t0, slope)
  }

  ghost predicate NoWorseAlong(g: Cluster, t: Forest, t0: Forest, slope: FeeFrac)
    requires Chunked(g, t) && Chunked(g, t0)
  {
    GainOver(g, t, t.Keys, slope) >= GainOver(g, t0, t0.Keys, slope)
  }

  /** After the climb: what all chunks but the bottom gain. */
  lemma ClimbGain(g: Cluster, t0: Forest, k: nat, t1: Forest, a: nat, t2: Forest, S2: set<nat>,
                  rho: FeeFrac, slope: FeeFrac)
    requires Cut(g, t0, k, t1, a) && Chunked(g, t1) && Chunked(g, t2) && S2 <= t2.Keys && a in S2
    requires KeepsAlong(g, t2, S2, a, rho, RateOf(g, t0, k), t1, t1.Keys - {k}, a, slope)
    ensures var g2, g0 := GainOver(g, t2, S2, slope), GainOver(g, t0, t0.Keys - {k}, slope);
            && g2 >= g0
            && (Cross(RateOf(g, t0, k), slope) >= 0 ==> g2 >= Cross(RateOf(g, t1, a), slope) + g0)
  {
    CutOthers(g, t0, k, t1, a);
    GainTake(g, t2, S2, slope, a);
    GainCongruent(g, t0, t1, t0.Keys - {k}, slope);
  }

  lemma CutOthers(g: Cluster, t0: Forest, k: nat, t1: Forest, a: nat)
    requires Cut(g, t0, k, t1, a)
    ensures t1.Keys - {k} - {a} == t0.Keys - {k} && SameChunks(t0, t1, t0.Keys - {k})
  {
  }

  /** After the sinking: what all chunks gain. */
  lemma SinkGain(g: Cluster, t2: Forest, k: nat, c: FeeFrac, t3: Forest, m3: nat, rho: FeeFrac, slope: FeeFrac)
    requires Chunked(g, t2) && Chunked(g, t3) && k in t2 && m3 in t3 && slope.size > 0
    requires Chunked(Mirror(g), t2) && Chunked(Mirror(g), t3)
    requires Keeps(Mirror(g), t3, t3.Keys, m3, rho, c.Neg(), t2, t2.Keys, k)
    ensures var g3, g2 := GainOver(g, t3, t3.Keys, slope), GainOver(g, t2, t2.Keys - {k}, slope);
            && g3 >= g2 + Cross(RateOf(g, t2, k), slope)
            && (Cross(c, slope) <= 0 ==> g3 >= g2)
  {
    var s := slope.Neg();
    assert KeepsAlong(Mirror(g), t3, t3.Keys, m3, rho, c.Neg(), t2, t2.Keys, k, s);
    CrossNeg(c, slope);
    CrossNeg(RateOf(g, t2, k), slope);
    CrossNeg(RateOf(g, t3, m3), slope);
    MirrorDepends(g, t2, k, k);
    MirrorDepends(g, t3, m3, m3);
    MirrorGain(g, t3, t3.Keys - {m3}, slope);
    MirrorGain(g, t3, t3.Keys, slope);
    MirrorGain(g, t2, t2.Keys - {k}, slope);
    MirrorGain(g, t2, t2.Keys, slope);
    GainTake(g, t3, t3.Keys, slope, m3);
    GainTake(g, t2, t2.Keys, slope, k);
  }

  /** The two halves of an improvement, along one slope. */
  lemma HalvesGain(fa: FeeFrac, fb: FeeFrac, slope: FeeFrac, g0: int, g2: int, g3: int)
    requires g2 >= g0 && (Cross(fa.Plus(fb), slope) >= 0 ==> g2 >= Cross(fa, slope) + g0)
    requires g3 >= g2 + Cross(fb, slope) && (Cross(fa.Plus(fb), slope) <= 0 ==> g3 >= g2)
    ensures g3 >= Pos(Cross(fa.Plus(fb), slope)) + g0
  {
    CrossPlus(fa, fb, slope);
  }

  /** An improvement never lowers the diagram. */
  lemma ImprovedGain(g: Cluster, t0: Forest, k: nat, t1: Forest, a: nat, t2: Forest, S2: set<nat>,
                     rho2: FeeFrac, t3: Forest, m3: nat, rho3: FeeFrac)
    requires Climbed(g, t0, k, t1, a, t2, S2, rho2)
    requires Keeps(g, t2, S2, a, rho2, RateOf(g, t0, k), t1, t1.Keys - {k}, a)
    requires Chunked(g, t3) && Chunked(Mirror(g), t2) && Chunked(Mirror(g), t3) && k in t2 && m3 in t3
    requires Keeps(Mirror(g), t3, t3.Keys, m3, rho3, RateOf(g, t0, k).Neg(), t2, t2.Keys, k)
    ensures NoWorse(g, t3, t0)
  {
    BottomStays(g, t0, k, t1, a, t2, S2, rho2);
    CutChunked(g, t0, k, t1, a);
    forall slope: FeeFrac | slope.size > 0
      ensures NoWorseAlong(g, t3, t0, slope)
    {
      ImprovedGainAlong(g, t0, k, t1, a, t2, S2, rho2, t3, m3, rho3, slope);
    }
  }

  lemma ImprovedGainAlong(g: Cluster, t0: Forest, k: nat, t1: Forest, a: nat, t2: Forest, S2: set<nat>,
                          rho2: FeeFrac, t3: Forest, m3: nat, rho3: FeeFrac, slope: FeeFrac)
    requires Climbed(g, t0, k, t1, a, t2, S2, rho2) && slope.size > 0
    requires Keeps(g, t2, S2, a, rho2, RateOf(g, t0, k), t1, t1.Keys - {k}, a)
    requires Chunked(g, t3) && Chunked(Mirror(g), t2) && Chunked(Mirror(g), t3) && k in t2 && m3 in t3
    requires Keeps(Mirror(g), t3, t3.Keys, m3, rho3, RateOf(g, t0, k).Neg(), t2, t2.Keys, k)
    requires t2.Keys - {k} == S2 && RateOf(g, t2, k) == RateOf(g, t1, k)
    requires RateOf(g, t0, k) == RateOf(g, t1, a).Plus(RateOf(g, t1, k))
    ensures NoWorseAlong(g, t3, t0, slope)
  {
    var c, fa, fb := RateOf(g, t0, k), RateOf(g, t1, a), RateOf(g, t1, k);
    assert KeepsAlong(g, t2, S2, a, rho2, c, t1, t1.Keys - {k}, a, slope);
    ClimbGain(g, t0, k, t1, a, t2, S2, rho2, slope);
    SinkGain(g, t2, k, c, t3, m3, rho3, slope);
    GainTake(g, t0, t0.Keys, slope, k);
    HalvesGain(fa, fb, slope, GainOver(g, t0, t0.Keys - {k}, slope), GainOver(g, t2, S2, slope),
               GainOver(g, t3, t3.Keys, slope));
  }

  /** Once the bottom is at rest too, every dependency is strict again. */
  lemma ImprovedTopological(g: Cluster, t: Forest, m: nat, rho: FeeFrac, floor: FeeFrac)
    requires Chunked(g, t) && Climbing(Mirror(g), t, t.Keys, m, rho, floor) && AtRest(Mirror(g), t, m)
    ensures Topological(g, t)
  {
    ClimbEnd(Mirror(g), t, t.Keys, m, rho, floor);
    MirrorTopological(g, t, t.Keys);
  }

  /** `t'` is `t` with the same transactions in each chunk, `k` now being `a`. */
  ghost predicate Renamed(g: Cluster, t: Forest, k: nat, t': Forest, a: nat) {
    && Chunked(g, t) && k in t && a !in t
    && t'.Keys == t.Keys - {k} + {a}
    && t'[a].txs == t[k].txs
    && forall i :: i in t && i != k ==> t'[i] == t[i]
  }

  ghost function OldName(k: nat, a: nat, i: nat): nat {
    if i == a then k else i
  }

  lemma RenamedDepends(g: Cluster, t: Forest, k: nat, t': Forest, a: nat, x: nat, y: nat)
    requires Renamed(g, t, k, t', a) && Chunked(g, t') && x in t' && y in t'
    ensures OldName(k, a, x) in t && OldName(k, a, y) in t
    ensures RateOf(g, t', x) == RateOf(g, t, OldName(k, a, x)) && RateOf(g, t', y) == RateOf(g, t, OldName(k, a, y))
    ensures DependsOn(g, t', x, y) <==> DependsOn(g, t, OldName(k, a, x), OldName(k, a, y))
  {
  }

  lemma RenamedTopological(g: Cluster, t: Forest, k: nat, t': Forest, a: nat)
    requires Renamed(g, t, k, t', a) && Chunked(g, t') && Topological(g, t)
    ensures Topological(g, t')
  {
    forall x, y | x in t' && y in t' && x != y && DependsOn(g, t', x, y)
      ensures Below(RateOf(g, t', x), RateOf(g, t', y))
    {
      RenamedDepends(g, t, k, t', a, x, y);
    }
  }

  lemma RenamedGain(g: Cluster, t: Forest, k: nat, t': Forest, a: nat, slope: FeeFrac)
    requires Renamed(g, t, k, t', a) && Chunked(g, t')
    ensures GainOver(g, t', t'.Keys, slope) == GainOver(g, t, t.Keys, slope)
  {
    RenamedDepends(g, t, k, t', a, a, a);
    assert t'.Keys - {a} == t.Keys - {k};
    GainTake(g, t, t.Keys, slope, k);
    GainTake(g, t', t'.Keys, slope, a);
    assert SameChunks(t, t', t.Keys - {k});
    GainCongruent(g, t, t', t.Keys - {k}, slope);
  }

  /** Joining the two parts again, the other way, leaves the chunk's index
      changed and nothing else. */
  lemma JoinedAgain(g: Cluster, t0: Forest, k: nat, d: Dep, a: nat, t1: Forest, e: Dep, t2: Forest)
    requires ValidForest(g, t0) && Chunked(g, t0) && Parted(t0, k, d, a, t1) && Joined(t1, k, a, e, t2)
    ensures Renamed(g, t0, k, t2, a)
  {
    SplitValid(t0[k], d);
    assert t2[a].txs == t1[k].txs + t1[a].txs;
  }

  lemma PartedIsCut(g: Cluster, t0: Forest, k: nat, d: Dep, a: nat, t1: Forest)
    requires ValidForest(g, t0) && Chunked(g, t0) && Parted(t0, k, d, a, t1)
    ensures Cut(g, t0, k, t1, a)
    ensures t1[a].txs == t0[k].tops[d]
  {
    SplitValid(t0[k], d);
  }

  /** A run of merges, upward in `v`, from `t0` with the chunk `m0` to `t` with
      the chunk `m`. */
  ghost predicate Running(v: Cluster, t0: Forest, S0: set<nat>, m0: nat, t: Forest, S: set<nat>, m: nat,
                          rho: FeeFrac, floor: FeeFrac)
  {
    && Climbing(v, t, S, m, rho, floor)
    && Chunked(v, t0) && S0 <= t0.Keys && m0 in S0 && Keeps(v, t, S, m, rho, floor, t0, S0, m0)
    && Grown(t0, S0, m0, t, S, m)
  }

  lemma RunStart(v: Cluster, t: Forest, S: set<nat>, m: nat, rho: FeeFrac, floor: FeeFrac)
    requires Climbing(v, t, S, m, rho, floor)
    ensures Running(v, t, S, m, t, S, m, rho, floor)
  {
    KeepsStart(v, t, S, m, rho, floor);
    GrownStart(t, S, m);
  }

  lemma FewerChunks(t: Forest, top: nat, bottom: nat, d: Dep, t': Forest)
    requires Joined(t, top, bottom, d, t')
    ensures |t'| < |t|
  {
    assert t'.Keys == t.Keys - {top};
    assert |t'.Keys| == |t'| && |t.Keys| == |t|;
  }

  /** What one merge of a run of merges keeps. */
  lemma RunStep(v: Cluster, t0: Forest, S0: set<nat>, m0: nat, t: Forest, S: set<nat>, m: nat, rho: FeeFrac,
                floor: FeeFrac, y: nat, d: Dep, t': Forest, r: nat)
    requires Running(v, t0, S0, m0, t, S, m, rho, floor) && MergeCandidate(v, t, m, y)
    requires r == m || r == y
    requires Joined(t, if r == y then m else y, r, d, t')
    ensures Running(v, t0, S0, m0, t', After(S, m, y, r), r, RateOf(v, t, y), floor) && |t'| < |t|
  {
    JoinedIsMerged(v, t, if r == y then m else y, r, d, t');
    Picked(v, t, S, m, rho, floor, y);
    ClimbStep(v, t, S, m, rho, floor, y, t', r);
    KeepsStep(v, t, S, m, rho, floor, y, t', r, t0, S0, m0);
    GrownStep(v, t0, S0, m0, t, S, m, y, t', r);
    FewerChunks(t, if r == y then m else y, r, d, t');
  }

  /** The chunks of `t` that are not in `queued` are those of `t0`, and `k` is
      not among them. */
  ghost predicate OthersKept(t0: Forest, k: nat, t: Forest, queued: set<nat>) {
    forall i :: i in t && i !in queued ==> i in t0 && i != k && t[i] == t0[i]
  }

  lemma ImprovedOthers(t0: Forest, k: nat, d: Dep, a: nat, t1: Forest, S1: set<nat>, t2: Forest, S2: set<nat>,
                       t3: Forest, S3: set<nat>, m3: nat)
    requires Parted(t0, k, d, a, t1)
    requires Grown(t1, S1, a, t2, S2, a) && Grown(t2, t2.Keys, k, t3, S3, m3)
    ensures OthersKept(t0, k, t3, {a, m3}) && S3 == t3.Keys
  {
    assert t3.Keys - S3 == t2.Keys - t2.Keys;
    forall i | i in t3 && i != a && i != m3
      ensures i in t0 && i != k && t3[i] == t0[i]
    {
      assert i in t2 && t3[i] == t2[i];
      assert i in t1 && t2[i] == t1[i];
    }
  }

  /** The whole of an improvement whose top did not depend on its bottom. */
  lemma ImprovedAll(g: Cluster, t0: Forest, k: nat, d: Dep, a: nat, t1: Forest, t2: Forest, S2: set<nat>, rho2: FeeFrac,
                    t3: Forest, S3: set<nat>, m3: nat, rho3: FeeFrac)
    requires Chunked(g, t0) && ValidForest(g, t0) && Parted(t0, k, d, a, t1) && TopAboveBottom(g, t0, k, t1, a)
    requires Running(g, t1, t1.Keys - {k}, a, t2, S2, a, rho2, RateOf(g, t0, k))
    requires k in t2 && Chunked(g, t3)
    requires Running(Mirror(g), t2, t2.Keys, k, t3, S3, m3, rho3, RateOf(g, t0, k).Neg()) && AtRest(Mirror(g), t3, m3)
    ensures Topological(g, t3) && NoWorse(g, t3, t0) && OthersKept(t0, k, t3, {a, m3})
  {
    ImprovedOthers(t0, k, d, a, t1, t1.Keys - {k}, t2, S2, t3, S3, m3);
    ImprovedTopological(g, t3, m3, rho3, RateOf(g, t0, k).Neg());
    assert Climbed(g, t0, k, t1, a, t2, S2, rho2);
    ImprovedGain(g, t0, k, t1, a, t2, S2, rho2, t3, m3, rho3);
  }

  /** The whole of an improvement whose top depends on its bottom. */
  lemma ImprovedNothing(g: Cluster, t0: Forest, k: nat, d: Dep, a: nat, t1: Forest, e: Dep, t2: Forest)
    requires Chunked(g, t0) && ValidForest(g, t0) && Parted(t0, k, d, a, t1) && Joined(t1, k, a, e, t2)
    requires Topological(g, t0) && Chunked(g, t2)
    ensures Topological(g, t2) && NoWorse(g, t2, t0) && OthersKept(t0, k, t2, {a})
  {
    JoinedAgain(g, t0, k, d, a, t1, e, t2);
    RenamedTopological(g, t0, k, t2, a);
    forall slope: FeeFrac | slope.size > 0
      ensures NoWorseAlong(g, t2, t0, slope)
    {
      RenamedGain(g, t0, k, t2, a, slope);
    }
  }
}
