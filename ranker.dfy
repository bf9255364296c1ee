/**
 * The ranker of calc_scores.py (get_ranking): a score map becomes a rank map,
 * rank 1 for the highest score, tied scores sharing the mean of the positions
 * they occupy. scipy's rankdata(..., method="average") is specified here by
 * counting, not modelled as a library.
 */
module Ranker {

  /** How an element compares with a reference value. */
  datatype Order = Below | Same | Above

  function Compare(x: int, v: int): Order
  {
    if x < v then Below else if x == v then Same else Above
  }

  /** The number of elements of `xs` that stand in relation `o` to `v`. */
  function Count(xs: seq<int>, v: int, o: Order): (n: nat)
    ensures n <= |xs|
  {
    if xs == [] then 0
    else (if Compare(xs[0], v) == o then 1 else 0) + Count(xs[1..], v, o)
  }

  lemma {:induction false} CountAppend(a: seq<int>, b: seq<int>, v: int, o: Order)
    ensures Count(a + b, v, o) == Count(a, v, o) + Count(b, v, o)
  {
    if a == [] {
      assert a + b == b;
    } else {
      assert (a + b)[1..] == a[1..] + b;
      CountAppend(a[1..], b, v, o);
    }
  }

  /** Every element is below, equal to or above `v`. */
  lemma {:induction false} CountTotal(xs: seq<int>, v: int)
    ensures Count(xs, v, Below) + Count(xs, v, Same) + Count(xs, v, Above) == |xs|
  {
    if xs != [] {
      CountTotal(xs[1..], v);
    }
  }

  lemma {:induction false} CountSameMember(xs: seq<int>, v: int)
    requires v in xs
    ensures Count(xs, v, Same) >= 1
  {
    if xs[0] != v {
      CountSameMember(xs[1..], v);
    }
  }

  /** Everything above or equal to a higher value `a` is strictly above a lower value `b`. */
  lemma {:induction false} CountAboveLower(xs: seq<int>, a: int, b: int)
    requires b < a
    ensures Count(xs, b, Above) >= Count(xs, a, Above) + Count(xs, a, Same)
  {
    if xs != [] {
      CountAboveLower(xs[1..], a, b);
    }
  }

  /** Removing the element at index k removes one occurrence of it from the multiset. */
  lemma MultisetRemove<T>(s: seq<T>, k: int)
    requires 0 <= k < |s|
    ensures multiset(s[..k] + s[k + 1..]) == multiset(s) - multiset{s[k]}
  {
    assert s == s[..k] + [s[k]] + s[k + 1..];
    assert multiset(s) == multiset(s[..k]) + multiset{s[k]} + multiset(s[k + 1..]);
  }

  lemma MultisetTail<T>(s: seq<T>)
    requires s != []
    ensures multiset(s[1..]) == multiset(s) - multiset{s[0]}
  {
    assert s == [s[0]] + s[1..];
  }

  /** A reordering of a non-empty sequence holds its first element somewhere; removing it there leaves a reordering of the tail. */
  lemma PermutationSplit<T>(xs: seq<T>, ys: seq<T>) returns (k: int)
    requires xs != [] && multiset(xs) == multiset(ys)
    ensures 0 <= k < |ys| && ys[k] == xs[0]
    ensures multiset(xs[1..]) == multiset(ys[..k] + ys[k + 1..])
  {
    assert xs[0] in multiset(ys);
    k :| 0 <= k < |ys| && ys[k] == xs[0];
    MultisetRemove(ys, k);
    MultisetTail(xs);
  }

  lemma CountRemove(ys: seq<int>, k: int, v: int, o: Order)
    requires 0 <= k < |ys|
    ensures Count(ys, v, o) == (if Compare(ys[k], v) == o then 1 else 0) + Count(ys[..k] + ys[k + 1..], v, o)
  {
    assert ys == ys[..k] + ([ys[k]] + ys[k + 1..]);
    CountAppend(ys[..k], [ys[k]] + ys[k + 1..], v, o);
    CountAppend(ys[..k], ys[k + 1..], v, o);
    assert ([ys[k]] + ys[k + 1..])[1..] == ys[k + 1..];
  }

  /** Counting depends only on the multiset of elements, not on their order. */
  lemma {:induction false} CountPermutation(xs: seq<int>, ys: seq<int>, v: int, o: Order)
    requires multiset(xs) == multiset(ys)
    ensures Count(xs, v, o) == Count(ys, v, o)
    decreases |xs|
  {
    if xs == [] {
      assert |ys| == |multiset(ys)| == 0;
    } else {
      var k := PermutationSplit(xs, ys);
      CountPermutation(xs[1..], ys[..k] + ys[k + 1..], v, o);
      CountRemove(ys, k, v, o);
    }
  }

  /** The list comprehension `[-1 * i for i in scores.values()]`. */
  function Negated(xs: seq<int>): (ys: seq<int>)
    ensures |ys| == |xs|
  {
    seq(|xs|, i requires 0 <= i < |xs| => -1 * xs[i])
  }

  /** Negation turns "above" into "below" and keeps ties. */
  lemma {:induction false} CountNegated(xs: seq<int>, v: int)
    ensures Count(Negated(xs), -v, Below) == Count(xs, v, Above)
    ensures Count(Negated(xs), -v, Same) == Count(xs, v, Same)
  {
    if xs != [] {
      assert Negated(xs)[1..] == Negated(xs[1..]);
      CountNegated(xs[1..], v);
    }
  }

  /**
   * rankdata(xs, method="average"): the ascending rank of each element; the
   * elements equal to xs[i] occupy the positions after the ones below it, and
   * each gets the mean of those positions.
   */
  function RankData(xs: seq<int>): (ranks: seq<real>)
    ensures |ranks| == |xs|
  {
    seq(|xs|, i requires 0 <= i < |xs| =>
      Count(xs, xs[i], Below) as real + (Count(xs, xs[i], Same) + 1) as real / 2.0)
  }

  /** The rank of score `v` among `scores`: #{higher scores} + (#{equal scores} + 1) / 2. */
  function DescRank(scores: seq<int>, v: int): real
  {
    Count(scores, v, Above) as real + (Count(scores, v, Same) + 1) as real / 2.0
  }

  /** Ranking the negated scores ascending is ranking the scores descending. */
  lemma RankDataOfNegated(xs: seq<int>, i: int)
    requires 0 <= i < |xs|
    ensures RankData(Negated(xs))[i] == DescRank(xs, xs[i])
  {
    CountNegated(xs, xs[i]);
  }

  /** A score that occurs among the scores has a rank between 1 and their number. */
  lemma DescRankBounds(xs: seq<int>, v: int)
    requires v in xs
    ensures 1.0 <= DescRank(xs, v) <= |xs| as real
  {
    CountSameMember(xs, v);
    CountTotal(xs, v);
  }

  /** A strictly higher score gets a strictly better (smaller) rank. */
  lemma DescRankStrict(xs: seq<int>, a: int, b: int)
    requires a in xs && b in xs && b < a
    ensures DescRank(xs, a) < DescRank(xs, b)
  {
    CountAboveLower(xs, a, b);
    CountSameMember(xs, b);
  }

  /** When all scores are equal (all 0 in particular), everyone gets (n + 1) / 2. */
  lemma {:induction false} DescRankAllEqual(xs: seq<int>, v: int)
    requires forall i :: 0 <= i < |xs| ==> xs[i] == v
    ensures DescRank(xs, v) == (|xs| + 1) as real / 2.0
  {
    AllEqualCounts(xs, v);
  }

  lemma {:induction false} AllEqualCounts(xs: seq<int>, v: int)
    requires forall i :: 0 <= i < |xs| ==> xs[i] == v
    ensures Count(xs, v, Above) == 0 && Count(xs, v, Same) == |xs|
  {
    if xs != [] {
      AllEqualCounts(xs[1..], v);
    }
  }

  // ---------------------------------------------------------------------------
  // The ranks of all scores add up to 1 + 2 + ... + n
  // ---------------------------------------------------------------------------

  /** The sum over `ys` of how many elements of `xs` stand in relation `o` to each. */
  function SumCount(ys: seq<int>, xs: seq<int>, o: Order): nat
  {
    if ys == [] then 0 else Count(xs, ys[0], o) + SumCount(ys[1..], xs, o)
  }

  /** The sum of the ranks, among `xs`, of the elements of `ys`. */
  function SumDescRanks(ys: seq<int>, xs: seq<int>): real
  {
    if ys == [] then 0.0 else DescRank(xs, ys[0]) + SumDescRanks(ys[1..], xs)
  }

  lemma {:induction false} SumCountConsBelow(xs: seq<int>, y: int, ys: seq<int>)
    ensures SumCount(xs, [y] + ys, Below) == Count(xs, y, Above) + SumCount(xs, ys, Below)
  {
    if xs != [] {
      assert ([y] + ys)[1..] == ys;
      SumCountConsBelow(xs[1..], y, ys);
    }
  }

  /** #{(y, x) : x > y} counted by y equals the same set counted by x. */
  lemma {:induction false} SumCountSwap(ys: seq<int>, xs: seq<int>)
    ensures SumCount(ys, xs, Above) == SumCount(xs, ys, Below)
  {
    if ys == [] {
      SumCountEmpty(xs);
    } else {
      SumCountSwap(ys[1..], xs);
      assert ys == [ys[0]] + ys[1..];
      SumCountConsBelow(xs, ys[0], ys[1..]);
    }
  }

  lemma {:induction false} SumCountEmpty(xs: seq<int>)
    ensures SumCount(xs, [], Below) == 0
  {
    if xs != [] {
      SumCountEmpty(xs[1..]);
    }
  }

  lemma {:induction false} SumCountTotal(ys: seq<int>, xs: seq<int>)
    ensures SumCount(ys, xs, Below) + SumCount(ys, xs, Same) + SumCount(ys, xs, Above) == |ys| * |xs|
  {
    if ys != [] {
      SumCountTotal(ys[1..], xs);
      CountTotal(xs, ys[0]);
      assert |ys| * |xs| == |xs| + (|ys| - 1) * |xs|;
    }
  }

  lemma {:induction false} SumDescRanksCounts(ys: seq<int>, xs: seq<int>)
    ensures SumDescRanks(ys, xs) == SumCount(ys, xs, Above) as real + (SumCount(ys, xs, Same) + |ys|) as real / 2.0
  {
    if ys != [] {
      SumDescRanksCounts(ys[1..], xs);
    }
  }

  /** The ranks of n scores add up to n (n + 1) / 2, ties or not. */
  lemma RankSum(xs: seq<int>)
    ensures SumDescRanks(xs, xs) == (|xs| * |xs| + |xs|) as real / 2.0
  {
    SumDescRanksCounts(xs, xs);
    SumCountSwap(xs, xs);
    SumCountTotal(xs, xs);
  }

  // ---------------------------------------------------------------------------
  // Score maps and rank maps keyed by fuzzer
  // ---------------------------------------------------------------------------

  /** No element occurs twice. */
  predicate NoDup<T(==)>(s: seq<T>)
  {
    forall i, j :: 0 <= i < j < |s| ==> s[i] != s[j]
  }

  /**
   * An insertion-ordered dictionary: `keys` is its iteration order and
   * `m` its contents.
   */
  predicate IsOrderedDict<V>(keys: seq<string>, m: map<string, V>)
  {
    NoDup(keys) && (forall k :: k in m ==> k in keys) && (forall k :: k in keys ==> k in m)
  }

  /** `dict.values()`: the values in iteration order. */
  function Values(keys: seq<string>, m: map<string, int>): (vs: seq<int>)
    requires forall k :: k in keys ==> k in m
    ensures |vs| == |keys|
  {
    seq(|keys|, i requires 0 <= i < |keys| => m[keys[i]])
  }

  /** The rank map that get_ranking produces, by the counting definition. */
  function RankMap(keys: seq<string>, scores: map<string, int>): (ranks: map<string, real>)
    requires IsOrderedDict(keys, scores)
    ensures ranks.Keys == scores.Keys
  {
    map k | k in scores :: DescRank(Values(keys, scores), scores[k])
  }

  /**
   * get_ranking: copies the score map, ranks the negated values with
   * rankdata(..., "average") and writes the i-th rank under the i-th key.
   */
  method GetRanking(keys: seq<string>, scores: map<string, int>) returns (ranks: map<string, real>)
    requires IsOrderedDict(keys, scores)
    ensures ranks.Keys == scores.Keys
    ensures forall i :: 0 <= i < |keys| ==> ranks[keys[i]] == RankData(Negated(Values(keys, scores)))[i]
    ensures ranks == RankMap(keys, scores)
  {
    var temp := RankData(Negated(Values(keys, scores)));
    ranks := map k | k in scores :: scores[k] as real;
    var i := 0;
    while i < |keys|
      invariant 0 <= i <= |keys|
      invariant ranks.Keys == scores.Keys
      invariant forall j :: 0 <= j < i ==> ranks[keys[j]] == temp[j]
    {
      assert forall j :: 0 <= j < i ==> keys[j] != keys[i];
      ranks := ranks[keys[i] := temp[i]];
      i := i + 1;
    }
    RankMapByPosition(keys, scores, ranks);
  }

  /** A map that gives every key the rank at its position is RankMap. */
  lemma RankMapByPosition(keys: seq<string>, scores: map<string, int>, ranks: map<string, real>)
    requires IsOrderedDict(keys, scores) && ranks.Keys == scores.Keys
    requires forall i :: 0 <= i < |keys| ==> ranks[keys[i]] == RankData(Negated(Values(keys, scores)))[i]
    ensures ranks == RankMap(keys, scores)
  {
    forall k | k in scores
      ensures ranks[k] == RankMap(keys, scores)[k]
    {
      var j :| 0 <= j < |keys| && keys[j] == k;
      RankDataOfNegated(Values(keys, scores), j);
    }
  }

  /** A key's own score is among the values of the map. */
  lemma ValueOfKey(keys: seq<string>, scores: map<string, int>, k: string)
    requires IsOrderedDict(keys, scores) && k in scores
    ensures scores[k] in Values(keys, scores)
  {
    var j :| 0 <= j < |keys| && keys[j] == k;
    assert Values(keys, scores)[j] == scores[k];
  }

  /** Equal scores rank equally; a higher score ranks strictly better; every rank lies in [1, n]. */
  lemma RankMapOrder(keys: seq<string>, scores: map<string, int>, a: string, b: string)
    requires IsOrderedDict(keys, scores) && a in scores && b in scores
    ensures scores[a] == scores[b] ==> RankMap(keys, scores)[a] == RankMap(keys, scores)[b]
    ensures scores[a] > scores[b] ==> RankMap(keys, scores)[a] < RankMap(keys, scores)[b]
    ensures 1.0 <= RankMap(keys, scores)[a] <= |keys| as real
  {
    ValueOfKey(keys, scores, a);
    ValueOfKey(keys, scores, b);
    DescRankBounds(Values(keys, scores), scores[a]);
    if scores[a] > scores[b] {
      DescRankStrict(Values(keys, scores), scores[a], scores[b]);
    }
  }

  /** When every score is 0, every fuzzer gets the tied rank (n + 1) / 2. */
  lemma RankMapAllZero(keys: seq<string>, scores: map<string, int>, k: string)
    requires IsOrderedDict(keys, scores) && k in scores
    requires forall f :: f in scores ==> scores[f] == 0
    ensures RankMap(keys, scores)[k] == (|keys| + 1) as real / 2.0
  {
    DescRankAllEqual(Values(keys, scores), 0);
  }

  /** The sum of the ranks of the keys in `ks`. */
  function SumRanks(ks: seq<string>, ranks: map<string, real>): real
    requires forall k :: k in ks ==> k in ranks
  {
    if ks == [] then 0.0 else ranks[ks[0]] + SumRanks(ks[1..], ranks)
  }

  lemma {:induction false} SumRanksOfRankMap(ks: seq<string>, keys: seq<string>, scores: map<string, int>)
    requires IsOrderedDict(keys, scores)
    requires forall k :: k in ks ==> k in scores
    ensures SumRanks(ks, RankMap(keys, scores)) == SumDescRanks(Values(ks, scores), Values(keys, scores))
  {
    if ks != [] {
      SumRanksOfRankMap(ks[1..], keys, scores);
      assert Values(ks, scores)[1..] == Values(ks[1..], scores);
    }
  }

  /** The ranks of one target add up to n (n + 1) / 2. */
  lemma RankMapSum(keys: seq<string>, scores: map<string, int>)
    requires IsOrderedDict(keys, scores)
    ensures SumRanks(keys, RankMap(keys, scores)) == (|keys| * |keys| + |keys|) as real / 2.0
  {
    SumRanksOfRankMap(keys, keys, scores);
    RankSum(Values(keys, scores));
  }

  lemma ValuesRemove(b: seq<string>, k: int, m: map<string, int>)
    requires 0 <= k < |b| && forall x :: x in b ==> x in m
    ensures multiset(Values(b, m)) == multiset{m[b[k]]} + multiset(Values(b[..k] + b[k + 1..], m))
  {
    var before, after := Values(b[..k], m), Values(b[k + 1..], m);
    assert Values(b, m) == before + [m[b[k]]] + after;
    assert Values(b[..k] + b[k + 1..], m) == before + after;
  }

  lemma {:induction false} ValuesPermutation(a: seq<string>, b: seq<string>, m: map<string, int>)
    requires forall k :: k in a ==> k in m
    requires multiset(a) == multiset(b)
    ensures forall k :: k in b ==> k in m
    ensures multiset(Values(a, m)) == multiset(Values(b, m))
    decreases |a|
  {
    forall x | x in b ensures x in m {
      assert x in multiset(a);
    }
    if a != [] {
      var k := PermutationSplit(a, b);
      ValuesPermutation(a[1..], b[..k] + b[k + 1..], m);
      ValuesRemove(b, k, m);
      ValuesRemove(a, 0, m);
      assert a[..0] + a[1..] == a[1..];
    }
  }

  /** In a list without duplicates every element occurs exactly once. */
  lemma {:induction false} NoDupMultiplicity<T>(a: seq<T>, x: T)
    requires NoDup(a)
    ensures multiset(a)[x] == if x in a then 1 else 0
  {
    if a != [] {
      assert NoDup(a[1..]) by {
        forall i, j | 0 <= i < j < |a[1..]| ensures a[1..][i] != a[1..][j] {
          assert a[1..][i] == a[i + 1] && a[1..][j] == a[j + 1];
        }
      }
      NoDupMultiplicity(a[1..], x);
      assert a == [a[0]] + a[1..];
      assert a[0] !in a[1..] by {
        forall i | 0 <= i < |a[1..]| ensures a[1..][i] != a[0] {
          assert a[1..][i] == a[i + 1];
        }
      }
    }
  }

  /** Iterating the score map in any other order of its keys yields the same rank map. */
  lemma RankMapOrderIndependent(keys: seq<string>, keys': seq<string>, scores: map<string, int>)
    requires IsOrderedDict(keys, scores) && IsOrderedDict(keys', scores)
    ensures RankMap(keys, scores) == RankMap(keys', scores)
  {
    forall x ensures multiset(keys)[x] == multiset(keys')[x] {
      NoDupMultiplicity(keys, x);
      NoDupMultiplicity(keys', x);
    }
    assert multiset(keys) == multiset(keys');
    ValuesPermutation(keys, keys', scores);
    forall k | k in scores
      ensures RankMap(keys, scores)[k] == RankMap(keys', scores)[k]
    {
      CountPermutation(Values(keys, scores), Values(keys', scores), scores[k], Same);
      CountPermutation(Values(keys, scores), Values(keys', scores), scores[k], Above);
    }
  }
}
