/** Lists of positions. */
module Sequences {

  /** Each at most once. */
  ghost predicate Distinct(s: seq<nat>) {
    forall i, j :: 0 <= i < j < |s| ==> s[i] != s[j]
  }

  ghost function Elements(s: seq<nat>): set<nat> {
    set i | i in s
  }

  lemma EachIsElement(s: seq<nat>)
    ensures forall i :: 0 <= i < |s| ==> s[i] in Elements(s)
    ensures Elements(s) == {} ==> s == []
  {
    assert s != [] ==> s[0] in Elements(s);
  }

  lemma ElementsConcat(p: seq<nat>, m: seq<nat>)
    ensures Elements(p + m) == Elements(p) + Elements(m)
  {
  }

  lemma PrefixElements(s: seq<nat>, i: nat)
    requires i < |s|
    ensures s[..i + 1] == s[..i] + [s[i]] && Elements(s[..i + 1]) == Elements(s[..i]) + {s[i]}
  {
  }

  lemma SplitOff<T>(s: seq<T>, k: nat)
    requires k < |s|
    ensures s == s[..k] + [s[k]] + s[k + 1..]
  {
  }
}
