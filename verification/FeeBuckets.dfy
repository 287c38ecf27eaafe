/** The feerate buckets of the fee estimator. */
module FeeBuckets {

  /** Bucket bounds in the order given, and what looks one up: the different
      bounds in order, each with the last bucket that has it. */
  datatype Buckets = Buckets(bounds: seq<real>, keys: seq<real>, index: seq<nat>)

  ghost predicate Increasing(s: seq<real>) {
    forall i, j :: 0 <= i < j < |s| ==> s[i] < s[j]
  }

  /** `i` is the last of the first `n` buckets with its bound. */
  ghost predicate IsLast(bounds: seq<real>, n: nat, i: nat) {
    i < n <= |bounds| && forall j :: i < j < n ==> bounds[j] != bounds[i]
  }

  ghost predicate Indexed(b: Buckets, n: nat) {
    && n <= |b.bounds| && |b.index| == |b.keys| && Increasing(b.keys)
    && (forall k :: 0 <= k < |b.keys| ==> IsLast(b.bounds, n, b.index[k]) && b.bounds[b.index[k]] == b.keys[k])
    && forall i :: 0 <= i < n ==> b.bounds[i] in b.keys
  }

  ghost predicate ValidBuckets(b: Buckets) {
    Indexed(b, |b.bounds|) && b.bounds != []
  }

  /** The position of the first key that is not below `x`. */
  method BisectLeft(keys: seq<real>, x: real) returns (p: nat)
    requires Increasing(keys)
    ensures p <= |keys| && (forall k :: 0 <= k < p ==> keys[k] < x) && forall k :: p <= k < |keys| ==> x <= keys[k]
  {
    var lo, hi := 0, |keys|;
    while lo < hi
      invariant 0 <= lo <= hi <= |keys|
      invariant forall k :: 0 <= k < lo ==> keys[k] < x
      invariant forall k :: hi <= k < |keys| ==> x <= keys[k]
    {
      var mid := (lo + hi) / 2;
      if keys[mid] < x {
        lo := mid + 1;
      } else {
        hi := mid;
      }
    }
    p := lo;
  }

  /** Where the bound of the bucket `n` is looked up: at `p`. */
  ghost predicate KeyPlace(b: Buckets, n: nat, p: nat) {
    && Indexed(b, n) && n < |b.bounds| && p <= |b.keys|
    && (forall k :: 0 <= k < p ==> b.keys[k] < b.bounds[n])
    && forall k :: p <= k < |b.keys| ==> b.bounds[n] <= b.keys[k]
  }

  function WithKey<T>(s: seq<T>, p: nat, x: T): seq<T>
    requires p <= |s|
  {
    s[..p] + [x] + s[p..]
  }

  lemma LaterBucket(b: Buckets, n: nat, p: nat)
    requires KeyPlace(b, n, p) && p < |b.keys| && b.keys[p] == b.bounds[n]
    ensures Indexed(b.(index := b.index[p := n]), n + 1)
  {
    forall k | 0 <= k < |b.keys| && k != p
      ensures IsLast(b.bounds, n + 1, b.index[k])
    {
      assert b.keys[k] != b.bounds[n];
    }
  }

  lemma NewKeyAt(b: Buckets, n: nat, p: nat, k: nat)
    requires KeyPlace(b, n, p) && (p < |b.keys| ==> b.keys[p] != b.bounds[n]) && k <= |b.keys|
    ensures var keys, index := WithKey(b.keys, p, b.bounds[n]), WithKey(b.index, p, n);
            IsLast(b.bounds, n + 1, index[k]) && b.bounds[index[k]] == keys[k]
  {
    var k' := if k < p then k else k - 1;
    if k != p {
      assert IsLast(b.bounds, n, b.index[k']) && b.bounds[b.index[k']] == b.keys[k'] && b.keys[k'] != b.bounds[n];
    }
  }

  lemma StillKeys(keys: seq<real>, p: nat, bound: real)
    requires p <= |keys|
    ensures bound in WithKey(keys, p, bound) && forall key :: key in keys ==> key in WithKey(keys, p, bound)
  {
    var more := WithKey(keys, p, bound);
    assert more[p] == bound;
    forall k | 0 <= k < |keys|
      ensures keys[k] in more
    {
      assert more[if k < p then k else k + 1] == keys[k];
    }
  }

  lemma StillKey(b: Buckets, n: nat, p: nat, i: nat)
    requires KeyPlace(b, n, p) && i <= n
    ensures b.bounds[i] in WithKey(b.keys, p, b.bounds[n])
  {
    StillKeys(b.keys, p, b.bounds[n]);
    if i < n {
      assert b.bounds[i] in b.keys;
    }
  }

  lemma NewKey(b: Buckets, n: nat, p: nat)
    requires KeyPlace(b, n, p) && (p < |b.keys| ==> b.keys[p] != b.bounds[n])
    ensures Indexed(b.(keys := WithKey(b.keys, p, b.bounds[n]), index := WithKey(b.index, p, n)), n + 1)
  {
    var keys, index := WithKey(b.keys, p, b.bounds[n]), WithKey(b.index, p, n);
    forall k | 0 <= k < |keys|
      ensures IsLast(b.bounds, n + 1, index[k]) && b.bounds[index[k]] == keys[k]
    {
      NewKeyAt(b, n, p, k);
    }
    forall i | 0 <= i < n + 1
      ensures b.bounds[i] in keys
    {
      StillKey(b, n, p, i);
    }
    AboveNewKey(b, n, p);
    KeysIncrease(b.keys, p, b.bounds[n]);
  }

  lemma KeysIncrease(keys: seq<real>, p: nat, x: real)
    requires Increasing(keys) && p <= |keys|
    requires forall k :: 0 <= k < p ==> keys[k] < x
    requires forall k :: p <= k < |keys| ==> x < keys[k]
    ensures Increasing(WithKey(keys, p, x))
  {
  }

  lemma AboveNewKey(b: Buckets, n: nat, p: nat)
    requires KeyPlace(b, n, p) && (p < |b.keys| ==> b.keys[p] != b.bounds[n])
    ensures forall k :: p <= k < |b.keys| ==> b.bounds[n] < b.keys[k]
  {
    forall k | p < k < |b.keys|
      ensures b.bounds[n] < b.keys[k]
    {
      assert b.keys[p] < b.keys[k];
    }
  }

  /** The buckets with the given bounds: a later bound equal to an earlier one
      wins. */
  method MakeBuckets(bounds: seq<real>) returns (b: Buckets)
    requires bounds != []
    ensures b.bounds == bounds && ValidBuckets(b)
  {
    b := Buckets(bounds, [], []);
    for i := 0 to |bounds|
      invariant b.bounds == bounds && Indexed(b, i)
    {
      var p := BisectLeft(b.keys, bounds[i]);
      if p < |b.keys| && b.keys[p] == bounds[i] {
        LaterBucket(b, i, p);
        b := b.(index := b.index[p := i]);
      } else {
        NewKey(b, i, p);
        b := b.(keys := WithKey(b.keys, p, bounds[i]), index := WithKey(b.index, p, i));
      }
    }
  }

  /** `i` is the last bucket with the lowest bound that is not below `x`, or with
      the highest bound where all are. */
  ghost predicate IsBucketOf(bounds: seq<real>, x: real, i: nat) {
    && IsLast(bounds, |bounds|, i)
    && forall j :: 0 <= j < |bounds| ==>
         (x <= bounds[j] ==> x <= bounds[i] <= bounds[j]) && (bounds[i] < x ==> bounds[j] <= bounds[i])
  }

  /** The bucket of a feerate. */
  method Find(b: Buckets, feerate: real) returns (i: nat)
    requires ValidBuckets(b)
    ensures IsBucketOf(b.bounds, feerate, i)
  {
    assert b.bounds[0] in b.keys;
    var p := BisectLeft(b.keys, feerate);
    var position := if p < |b.keys| - 1 then p else |b.keys| - 1;
    i := b.index[position];
    forall j | 0 <= j < |b.bounds|
      ensures (feerate <= b.bounds[j] ==> feerate <= b.bounds[i] <= b.bounds[j])
      ensures (b.bounds[i] < feerate ==> b.bounds[j] <= b.bounds[i])
    {
      assert b.bounds[j] in b.keys;
      var k :| 0 <= k < |b.keys| && b.keys[k] == b.bounds[j];
      assert k == position || b.keys[k] < b.keys[position] || b.keys[position] < b.keys[k];
    }
  }

  /** There is one bucket for each feerate. */
  lemma OneBucket(bounds: seq<real>, x: real, i: nat, j: nat)
    requires IsBucketOf(bounds, x, i) && IsBucketOf(bounds, x, j)
    ensures i == j
  {
    assert bounds[i] == bounds[j];
  }
}
