/** Why merging chunks from a queue, most of them in one direction only, leaves
    no dependency that is not strict. */
module Watching {
  import opened Clusters
  import opened FeeRates
  import opened Forests
  import opened Improving

  /** `x` depends on a chunk that it beats or ties. */
  ghost predicate Violated(g: Cluster, t: Forest, x: nat, y: nat)
    requires Chunked(g, t) && x in t && y in t
  {
    x != y && DependsOn(g, t, x, y) && AtMost(RateOf(g, t, y), RateOf(g, t, x))
  }

  /** One end of a violated dependency is queued: the end that is tried in the
      first direction, or the other one, if it will be tried in both. */
  ghost predicate EndQueued(down: bool, x: nat, y: nat, queued: set<nat>, merged: set<nat>) {
    if down then y in queued || (x in queued && x in merged) else x in queued || (y in queued && y in merged)
  }

  ghost predicate Watched(g: Cluster, t: Forest, down: bool, queued: set<nat>, merged: set<nat>)
    requires Chunked(g, t)
  {
    forall x, y {:trigger Violated(g, t, x, y)} ::
      x in t && y in t && Violated(g, t, x, y) ==> EndQueued(down, x, y, queued, merged)
  }

  lemma AllWatched(g: Cluster, t: Forest, down: bool, merged: set<nat>)
    requires Chunked(g, t)
    ensures Watched(g, t, down, t.Keys, merged)
  {
  }

  /** A chunk that is gone does not matter. */
  lemma WatchedWithoutGone(g: Cluster, t: Forest, down: bool, queued: set<nat>, merged: set<nat>, k: nat)
    requires Chunked(g, t) && Watched(g, t, down, queued, merged) && k !in t
    ensures Watched(g, t, down, queued - {k}, merged)
  {
  }

  /** After `k` and `z` are merged, and the result is queued. */
  lemma WatchedAfterMerge(g: Cluster, t: Forest, down: bool, queued: set<nat>, merged: set<nat>, k: nat, z: nat,
                          t': Forest, r: nat)
    requires Merged(g, t, k, z, t', r) && Watched(g, t, down, queued, merged)
    ensures Chunked(g, t') && Watched(g, t', down, queued - {k} + {r}, merged + {r})
  {
    MergedChunked(g, t, k, z, t', r);
    forall x, y | x in t' && y in t' && Violated(g, t', x, y)
      ensures EndQueued(down, x, y, queued - {k} + {r}, merged + {r})
    {
      if x != r && y != r {
        MergedApart(g, t, k, z, t', r, x, y);
        MergedApart(g, t, k, z, t', r, y, x);
        assert Violated(g, t, x, y);
      }
    }
  }

  /** `k` was tried upward, or downward, or both, and nothing was found. */
  ghost predicate TriedInVain(g: Cluster, t: Forest, k: nat, upward: bool, downward: bool)
    requires Chunked(g, t) && k in t
  {
    && (upward ==> AtRest(g, t, k))
    && (downward ==> Chunked(Mirror(g), t) && AtRest(Mirror(g), t, k))
  }

  lemma NotViolatedAt(g: Cluster, t: Forest, k: nat, upward: bool, downward: bool, z: nat)
    requires Chunked(g, t) && k in t && z in t && TriedInVain(g, t, k, upward, downward)
    ensures upward ==> !Violated(g, t, k, z)
    ensures downward ==> !Violated(g, t, z, k)
  {
    if upward && Violated(g, t, k, z) {
      NotBoth(RateOf(g, t, k), RateOf(g, t, z));
    }
    if downward && Violated(g, t, z, k) {
      MirrorDepends(g, t, k, z);
      CrossNeg(RateOf(g, t, k), RateOf(g, t, z));
      NotBoth(RateOf(g, t, k), RateOf(g, t, z));
    }
  }

  /** After `k` was tried in vain: in both directions if it was merged before,
      and in the first direction otherwise. */
  lemma WatchedAfterVain(g: Cluster, t: Forest, down: bool, queued: set<nat>, merged: set<nat>, k: nat)
    requires Chunked(g, t) && k in t && Watched(g, t, down, queued, merged)
    requires TriedInVain(g, t, k, k in merged || !down, k in merged || down)
    ensures Watched(g, t, down, queued - {k}, merged)
  {
    forall x, y | x in t && y in t && Violated(g, t, x, y)
      ensures EndQueued(down, x, y, queued - {k}, merged)
    {
      if x == k {
        NotViolatedAt(g, t, k, k in merged || !down, k in merged || down, y);
      } else if y == k {
        NotViolatedAt(g, t, k, k in merged || !down, k in merged || down, x);
      }
    }
  }

  /** Where every dependency is strict, there is nothing to merge. */
  lemma NothingToMerge(g: Cluster, t: Forest, k: nat, y: nat)
    requires Chunked(g, t) && k in t && Topological(g, t)
    ensures !MergeCandidate(g, t, k, y)
    ensures Chunked(Mirror(g), t) && !MergeCandidate(Mirror(g), t, k, y)
  {
    MirrorChunked(g, t);
    if y in t && y != k {
      NotBoth(RateOf(g, t, k), RateOf(g, t, y));
      MirrorDepends(g, t, k, y);
      CrossNeg(RateOf(g, t, k), RateOf(g, t, y));
      NotBoth(RateOf(g, t, y), RateOf(g, t, k));
      CrossFlip(RateOf(g, t, k), RateOf(g, t, y));
    }
  }

  /** Once nothing is queued, every dependency is strict. */
  lemma WatchedToTheEnd(g: Cluster, t: Forest, down: bool, merged: set<nat>)
    requires Chunked(g, t) && Watched(g, t, down, {}, merged)
    ensures Topological(g, t)
  {
    forall x, y | x in t && y in t && x != y && DependsOn(g, t, x, y)
      ensures Below(RateOf(g, t, x), RateOf(g, t, y))
    {
      assert !Violated(g, t, x, y);
      CrossFlip(RateOf(g, t, x), RateOf(g, t, y));
    }
  }
}
