/**
 * The scorer of calc_scores.py: pairwise results read from the statistics
 * database, discovery of fuzzers and targets, the unordered fuzzer pairs, and
 * the two zero-sum scoring rules applied to every pair of one target.
 */
module Scorer {
  import opened Wrappers
  import opened Ranker

  // ---------------------------------------------------------------------------
  // Pairwise results (TargetResult, float_conversion, get_stats)
  // ---------------------------------------------------------------------------

  /**
   * float_conversion: "-" marks a statistic the statistics engine could not
   * compute and reads as -1; anything else goes through Python's `float()`,
   * the partial function `parseFloat` (None is its ValueError).
   */
  function FloatConversion(s: string, parseFloat: string -> Option<real>): (r: Option<real>)
    ensures s == "-" ==> r == Some(-1.0)
    ensures s != "-" ==> r == parseFloat(s)
  {
    if s == "-" then Some(-1.0) else parseFloat(s)
  }

  /** A row of the `stats` table after its id: names, then p_fet, p_mwu, odds_ratio and a12 as text. */
  datatype StatsRow = StatsRow(
    baseFuzzer: string, compareFuzzer: string, target: string, seed: string,
    pFet: string, pMwu: string, oddsRatio: string, a12: string)

  /** One pairwise comparison of `baseFuzzer` against `compareFuzzer` on one target and seed. */
  datatype TargetResult = TargetResult(
    baseFuzzer: string, compareFuzzer: string, target: string, seed: string,
    pMwu: real, pFet: real, oddsRatio: real, a12: real)

  /** TargetResult(*(entry[1:])): the four statistics go through float_conversion. */
  function ToTargetResult(row: StatsRow, parseFloat: string -> Option<real>): (r: Option<TargetResult>)
    ensures r.Some? <==>
              FloatConversion(row.pMwu, parseFloat).Some? && FloatConversion(row.pFet, parseFloat).Some?
              && FloatConversion(row.oddsRatio, parseFloat).Some? && FloatConversion(row.a12, parseFloat).Some?
    ensures r.Some? ==>
              && r.value.baseFuzzer == row.baseFuzzer && r.value.compareFuzzer == row.compareFuzzer
              && r.value.target == row.target && r.value.seed == row.seed
              && Some(r.value.pMwu) == FloatConversion(row.pMwu, parseFloat)
              && Some(r.value.pFet) == FloatConversion(row.pFet, parseFloat)
              && Some(r.value.oddsRatio) == FloatConversion(row.oddsRatio, parseFloat)
              && Some(r.value.a12) == FloatConversion(row.a12, parseFloat)
  {
    match (FloatConversion(row.pMwu, parseFloat), FloatConversion(row.pFet, parseFloat),
           FloatConversion(row.oddsRatio, parseFloat), FloatConversion(row.a12, parseFloat))
    case (Some(pMwu), Some(pFet), Some(oddsRatio), Some(a12)) =>
      Some(TargetResult(row.baseFuzzer, row.compareFuzzer, row.target, row.seed, pMwu, pFet, oddsRatio, a12))
    case _ => None
  }

  /** An "unavailable" p-value (-1) passes every significance threshold above -1. */
  lemma UnavailablePValueIsSignificant(row: StatsRow, parseFloat: string -> Option<real>, thresholdP: real)
    requires thresholdP > -1.0
    requires ToTargetResult(row, parseFloat).Some?
    ensures row.pMwu == "-" ==> ToTargetResult(row, parseFloat).value.pMwu < thresholdP
    ensures row.pFet == "-" ==> ToTargetResult(row, parseFloat).value.pFet < thresholdP
  {
  }

  /** An unordered fuzzer pair as enumerated: (pair[0], pair[1]). */
  type Pair = (string, string)

  /** The entry get_stats looks for: base = pair[0], compare = pair[1], same target and seed. */
  predicate Matches(e: TargetResult, pair: Pair, target: string, seed: string)
  {
    e.baseFuzzer == pair.0 && e.compareFuzzer == pair.1 && e.target == target && e.seed == seed
  }

  /** The first entry of `results` that matches, if any (FirstMatchAt: it is the first). */
  function FirstMatch(results: seq<TargetResult>, pair: Pair, target: string, seed: string): (r: Option<TargetResult>)
    ensures r.None? <==> forall i :: 0 <= i < |results| ==> !Matches(results[i], pair, target, seed)
    ensures r.Some? ==> r.value in results && Matches(r.value, pair, target, seed)
  {
    if results == [] then None
    else if Matches(results[0], pair, target, seed) then Some(results[0])
    else
      var r := FirstMatch(results[1..], pair, target, seed);
      assert r.None? ==> forall i :: 0 <= i < |results| ==> !Matches(results[i], pair, target, seed) by {
        if r.None? {
          forall i | 0 <= i < |results| ensures !Matches(results[i], pair, target, seed) {
            if i > 0 {
              assert results[i] == results[1..][i - 1];
            }
          }
        }
      }
      r
  }

  /**
   * get_stats: a linear search that returns the first matching entry; None
   * stands for the LookupError raised when no entry matches.
   */
  method GetStats(pair: Pair, target: string, seed: string, results: seq<TargetResult>) returns (found: Option<TargetResult>)
    ensures found == FirstMatch(results, pair, target, seed)
  {
    var i := 0;
    while i < |results|
      invariant 0 <= i <= |results|
      invariant forall j :: 0 <= j < i ==> !Matches(results[j], pair, target, seed)
    {
      if Matches(results[i], pair, target, seed) {
        FirstMatchAt(results, pair, target, seed, i);
        return Some(results[i]);
      }
      i := i + 1;
    }
    return None;
  }

  /** The first matching index determines FirstMatch. */
  lemma {:induction false} FirstMatchAt(results: seq<TargetResult>, pair: Pair, target: string, seed: string, i: int)
    requires 0 <= i < |results| && Matches(results[i], pair, target, seed)
    requires forall j :: 0 <= j < i ==> !Matches(results[j], pair, target, seed)
    ensures FirstMatch(results, pair, target, seed) == Some(results[i])
  {
    if i > 0 {
      assert !Matches(results[0], pair, target, seed);
      assert forall j :: 0 <= j < i - 1 ==> !Matches(results[1..][j], pair, target, seed) by {
        forall j | 0 <= j < i - 1 ensures !Matches(results[1..][j], pair, target, seed) {
          assert results[1..][j] == results[j + 1];
        }
      }
      FirstMatchAt(results[1..], pair, target, seed, i - 1);
    }
  }

  // ---------------------------------------------------------------------------
  // Discovery of fuzzers and targets, and the fuzzer pairs
  // ---------------------------------------------------------------------------

  /** The list built by `if x not in xs: xs.append(x)` over `xs`, in order. */
  function Dedup(xs: seq<string>): (d: seq<string>)
    ensures NoDup(d)
    ensures forall x :: x in d <==> x in xs
  {
    if xs == [] then []
    else
      var d' := Dedup(xs[..|xs| - 1]);
      var x := xs[|xs| - 1];
      assert xs == xs[..|xs| - 1] + [x];
      if x in d' then d' else d' + [x]
  }

  /** The index of the first occurrence of `x` in `xs`. */
  function IndexOf(xs: seq<string>, x: string): (i: nat)
    requires x in xs
    ensures i < |xs| && xs[i] == x
    ensures forall j :: 0 <= j < i ==> xs[j] != x
  {
    if xs[0] == x then 0 else 1 + IndexOf(xs[1..], x)
  }

  lemma IndexOfPrefix(xs: seq<string>, y: string, x: string)
    requires x in xs
    ensures IndexOf(xs + [y], x) == IndexOf(xs, x)
  {
    var i := IndexOf(xs, x);
    assert (xs + [y])[i] == x;
    assert forall j :: 0 <= j < i ==> (xs + [y])[j] != x;
    IndexOfUnique(xs + [y], x, i);
  }

  lemma IndexOfUnique(xs: seq<string>, x: string, i: int)
    requires 0 <= i < |xs| && xs[i] == x && forall j :: 0 <= j < i ==> xs[j] != x
    ensures IndexOf(xs, x) == i
  {
    var k := IndexOf(xs, x);
    assert !(k < i) && !(i < k);
  }

  /** Discovery keeps first-appearance order: earlier in the list means seen earlier. */
  lemma {:induction false} DedupFirstAppearanceOrder(xs: seq<string>, i: int, j: int)
    requires 0 <= i < j < |Dedup(xs)|
    ensures IndexOf(xs, Dedup(xs)[i]) < IndexOf(xs, Dedup(xs)[j])
    decreases |xs|
  {
    var prefix := xs[..|xs| - 1];
    var x := xs[|xs| - 1];
    var d' := Dedup(prefix);
    assert xs == prefix + [x];
    var d := Dedup(xs);
    assert d[i] in prefix by {
      if x !in d' && i == |d'| {
        assert false;
      }
    }
    IndexOfPrefix(prefix, x, d[i]);
    if j < |d'| {
      DedupFirstAppearanceOrder(prefix, i, j);
      IndexOfPrefix(prefix, x, d[j]);
    } else {
      assert x !in prefix && d[j] == x;
      IndexOfUnique(xs, x, |prefix|);
    }
  }

  function BaseFuzzers(results: seq<TargetResult>): (names: seq<string>)
    ensures |names| == |results|
  {
    seq(|results|, i requires 0 <= i < |results| => results[i].baseFuzzer)
  }

  function TargetNames(results: seq<TargetResult>): (names: seq<string>)
    ensures |names| == |results|
  {
    seq(|results|, i requires 0 <= i < |results| => results[i].target)
  }

  /** The discovery loop: every base fuzzer and every target, once each, in first-appearance order. */
  method Discover(results: seq<TargetResult>) returns (fuzzers: seq<string>, targets: seq<string>)
    ensures fuzzers == Dedup(BaseFuzzers(results))
    ensures targets == Dedup(TargetNames(results))
  {
    fuzzers, targets := [], [];
    for i := 0 to |results|
      invariant fuzzers == Dedup(BaseFuzzers(results[..i]))
      invariant targets == Dedup(TargetNames(results[..i]))
    {
      var result := results[i];
      assert BaseFuzzers(results[..i + 1])[..i] == BaseFuzzers(results[..i]);
      assert TargetNames(results[..i + 1])[..i] == TargetNames(results[..i]);
      if result.baseFuzzer !in fuzzers {
        fuzzers := fuzzers + [result.baseFuzzer];
      }
      if result.target !in targets {
        targets := targets + [result.target];
      }
    }
    assert results[..|results|] == results;
  }

  /** The pairs (x, y) for every y after x. */
  function PairsWith(x: string, rest: seq<string>): (ps: seq<Pair>)
    ensures |ps| == |rest|
    ensures forall k :: 0 <= k < |rest| ==> ps[k] == (x, rest[k])
  {
    seq(|rest|, k requires 0 <= k < |rest| => (x, rest[k]))
  }

  /** combinations(fuzzers, 2): (fs[i], fs[j]) for i < j, in lexicographic order of (i, j). */
  function Pairs(fs: seq<string>): (ps: seq<Pair>)
    ensures fs == [] ==> ps == []
  {
    if fs == [] then [] else PairsWith(fs[0], fs[1..]) + Pairs(fs[1..])
  }

  /** n fuzzers make n (n - 1) / 2 pairs. */
  lemma {:induction false} PairsCount(fs: seq<string>)
    ensures 2 * |Pairs(fs)| == |fs| * (|fs| - 1)
  {
    if fs != [] {
      var m := |fs| - 1;
      PairsCount(fs[1..]);
      assert |Pairs(fs)| == m + |Pairs(fs[1..])|;
      assert m * (m - 1) + 2 * m == m * (m + 1);
    }
  }

  /** Every enumerated pair is made of two fuzzers in list order. */
  lemma {:induction false} PairsSound(fs: seq<string>, p: Pair) returns (i: int, j: int)
    requires p in Pairs(fs)
    ensures 0 <= i < j < |fs| && fs[i] == p.0 && fs[j] == p.1
  {
    var first, rest := PairsWith(fs[0], fs[1..]), Pairs(fs[1..]);
    assert Pairs(fs) == first + rest;
    if p in first {
      var k :| 0 <= k < |first| && first[k] == p;
      i, j := 0, k + 1;
      assert fs[j] == fs[1..][k];
    } else {
      assert p in rest;
      var i', j' := PairsSound(fs[1..], p);
      i, j := i' + 1, j' + 1;
      assert fs[i] == fs[1..][i'] && fs[j] == fs[1..][j'];
    }
  }

  /** Every two fuzzers in list order are enumerated as a pair. */
  lemma {:induction false} PairsComplete(fs: seq<string>, i: int, j: int)
    requires 0 <= i < j < |fs|
    ensures (fs[i], fs[j]) in Pairs(fs)
  {
    var first, rest := PairsWith(fs[0], fs[1..]), Pairs(fs[1..]);
    assert Pairs(fs) == first + rest;
    if i == 0 {
      assert first[j - 1] == (fs[i], fs[j]);
      assert (first + rest)[j - 1] == first[j - 1];
    } else {
      PairsComplete(fs[1..], i - 1, j - 1);
      assert fs[1..][i - 1] == fs[i] && fs[1..][j - 1] == fs[j];
      assert (fs[i], fs[j]) in rest;
    }
  }

  /** A pair is enumerated exactly when its members stand in that order in the list. */
  lemma PairsMembership(fs: seq<string>, p: Pair)
    ensures p in Pairs(fs) <==> exists i, j :: 0 <= i < j < |fs| && fs[i] == p.0 && fs[j] == p.1
  {
    if p in Pairs(fs) {
      var i, j := PairsSound(fs, p);
    }
    if exists i, j :: 0 <= i < j < |fs| && fs[i] == p.0 && fs[j] == p.1 {
      var i, j :| 0 <= i < j < |fs| && fs[i] == p.0 && fs[j] == p.1;
      PairsComplete(fs, i, j);
    }
  }

  /** Both members of every pair are among the fuzzers. */
  lemma PairsWithin(fs: seq<string>)
    ensures forall p :: p in Pairs(fs) ==> p.0 in fs && p.1 in fs
  {
    forall p | p in Pairs(fs) ensures p.0 in fs && p.1 in fs {
      var i, j := PairsSound(fs, p);
    }
  }

  lemma NoDupAppend<T>(a: seq<T>, b: seq<T>)
    requires NoDup(a) && NoDup(b)
    requires forall x :: x in a ==> x !in b
    ensures NoDup(a + b)
  {
    forall i, j | 0 <= i < j < |a + b| ensures (a + b)[i] != (a + b)[j] {
      if i < |a| && j >= |a| {
        assert (a + b)[i] in a && (a + b)[j] == b[j - |a|];
      }
    }
  }

  /** Every pair of distinct fuzzers is enumerated once, never with itself, never in both orders. */
  lemma {:induction false} PairsDistinct(fs: seq<string>)
    requires NoDup(fs)
    ensures NoDup(Pairs(fs))
    ensures forall p :: p in Pairs(fs) ==> p.0 != p.1 && (p.1, p.0) !in Pairs(fs)
  {
    if fs != [] {
      var x, rest := fs[0], fs[1..];
      assert NoDup(rest) by {
        forall i, j | 0 <= i < j < |rest| ensures rest[i] != rest[j] {
          assert rest[i] == fs[i + 1] && rest[j] == fs[j + 1];
        }
      }
      assert x !in rest by {
        forall k | 0 <= k < |rest| ensures rest[k] != x {
          assert rest[k] == fs[k + 1];
        }
      }
      PairsDistinct(rest);
      var first := PairsWith(x, rest);
      forall p | p in Pairs(rest) ensures p.0 in rest && p.1 in rest {
        PairsMembership(rest, p);
      }
      assert NoDup(first) by {
        forall i, j | 0 <= i < j < |first| ensures first[i] != first[j] {
        }
      }
      NoDupAppend(first, Pairs(rest));
      forall p | p in Pairs(fs) ensures p.0 != p.1 && (p.1, p.0) !in Pairs(fs) {
        PairsMembership(fs, p);
        PairsMembership(fs, (p.1, p.0));
        var i, j :| 0 <= i < j < |fs| && fs[i] == p.0 && fs[j] == p.1;
      }
    }
  }

  // ---------------------------------------------------------------------------
  // Scoring rules
  // ---------------------------------------------------------------------------

  /** The five thresholds of one configuration. */
  datatype Thresholds = Thresholds(p: real, oddsRatio1: real, oddsRatio2: real, a12First: real, a12Second: real)

  /** The outcome of one pair under one scoring method. */
  datatype Verdict = BaseWins | CompareWins | NoChange

  /** What the winner of a pair gains (and the loser loses) for pair[0]. */
  function Gain(v: Verdict): int
  {
    match v
    case BaseWins => 1
    case CompareWins => -1
    case NoChange => 0
  }

  /** The continuous ("interval scaled") rule: Mann-Whitney p-value, then the A12 effect size. */
  function MwuVerdict(e: TargetResult, th: Thresholds): (v: Verdict)
    ensures v == BaseWins <==> e.pMwu < th.p && e.a12 < th.a12First
    ensures v == CompareWins <==> e.pMwu < th.p && e.a12 >= th.a12First && e.a12 > th.a12Second
    ensures v == NoChange <==> e.pMwu >= th.p || (th.a12First <= e.a12 <= th.a12Second)
  {
    if e.pMwu < th.p then
      if e.a12 < th.a12First then BaseWins
      else if e.a12 > th.a12Second then CompareWins
      else NoChange
    else NoChange
  }

  /**
   * The dichotomous rule: Fisher p-value, then the odds ratio for pair[0];
   * the second branch compares A12 (not the odds ratio) with the second
   * odds-ratio threshold, as the source does.
   */
  function FetVerdict(e: TargetResult, th: Thresholds): (v: Verdict)
    ensures v == BaseWins <==> e.pFet < th.p && e.oddsRatio > th.oddsRatio1
    ensures v == CompareWins <==> e.pFet < th.p && e.oddsRatio <= th.oddsRatio1 && e.a12 < th.oddsRatio2
    ensures v == NoChange <==> e.pFet >= th.p || (e.oddsRatio <= th.oddsRatio1 && e.a12 >= th.oddsRatio2)
  {
    if e.pFet < th.p then
      if e.oddsRatio > th.oddsRatio1 then BaseWins
      else if e.a12 < th.oddsRatio2 then CompareWins
      else NoChange
    else NoChange
  }

  /** Given T_a1 <= T_a2, an A12 from T_a1 to T_a2, both included, never moves the continuous score. */
  lemma A12AtThresholdNoChange(e: TargetResult, th: Thresholds)
    requires th.a12First <= th.a12Second
    ensures th.a12First <= e.a12 <= th.a12Second ==> MwuVerdict(e, th) == NoChange
  {
  }

  /**
   * One pair's adjustment to a score map: pair[0] += gain, then pair[1] -= gain,
   * applied one after the other as the two statements of the source.
   */
  function Apply(m: map<string, int>, pair: Pair, v: Verdict): (m': map<string, int>)
    requires pair.0 in m && pair.1 in m
    ensures m'.Keys == m.Keys
  {
    var m1 := m[pair.0 := m[pair.0] + Gain(v)];
    m1[pair.1 := m1[pair.1] - Gain(v)]
  }

  /**
   * One pair moves only its two fuzzers, by the verdict's gain in opposite
   * directions; a pair of a fuzzer with itself changes nothing.
   */
  lemma ApplyEffect(m: map<string, int>, pair: Pair, v: Verdict)
    requires pair.0 in m && pair.1 in m
    ensures forall k :: k in m && k != pair.0 && k != pair.1 ==> Apply(m, pair, v)[k] == m[k]
    ensures pair.0 != pair.1 ==> Apply(m, pair, v)[pair.0] == m[pair.0] + Gain(v)
                                 && Apply(m, pair, v)[pair.1] == m[pair.1] - Gain(v)
    ensures pair.0 == pair.1 || v == NoChange ==> Apply(m, pair, v) == m
  {
  }

  /** A win for pair[0] is the source's two in-place updates, `+= 1` then `-= 1`. */
  lemma ApplyBaseWins(m: map<string, int>, pair: Pair)
    requires pair.0 in m && pair.1 in m
    ensures var m1 := m[pair.0 := m[pair.0] + 1]; Apply(m, pair, BaseWins) == m1[pair.1 := m1[pair.1] - 1]
  {
  }

  /** A win for pair[1] is the source's two in-place updates, `-= 1` then `+= 1`. */
  lemma ApplyCompareWins(m: map<string, int>, pair: Pair)
    requires pair.0 in m && pair.1 in m
    ensures var m1 := m[pair.0 := m[pair.0] - 1]; Apply(m, pair, CompareWins) == m1[pair.1 := m1[pair.1] + 1]
  {
  }

  lemma ApplyNoChange(m: map<string, int>, pair: Pair)
    requires pair.0 in m && pair.1 in m
    ensures Apply(m, pair, NoChange) == m
  {
  }

  /** The two score maps of one target. */
  datatype TargetScores = TargetScores(mwu: map<string, int>, fet: map<string, int>)

  /** Both rules applied to one pair with its pairwise result. */
  function ScorePair(s: TargetScores, pair: Pair, e: TargetResult, th: Thresholds): (s': TargetScores)
    requires pair.0 in s.mwu && pair.1 in s.mwu && pair.0 in s.fet && pair.1 in s.fet
    ensures s'.mwu.Keys == s.mwu.Keys && s'.fet.Keys == s.fet.Keys
  {
    TargetScores(Apply(s.mwu, pair, MwuVerdict(e, th)), Apply(s.fet, pair, FetVerdict(e, th)))
  }

  /** Every fuzzer starts a target at 0 in both maps. */
  function ZeroScores(fuzzers: seq<string>): (s: TargetScores)
    ensures forall f :: f in s.mwu <==> f in fuzzers
    ensures forall f :: f in s.fet <==> f in fuzzers
    ensures forall f :: f in fuzzers ==> s.mwu[f] == 0 && s.fet[f] == 0
  {
    var zero := map f | f in fuzzers :: 0;
    TargetScores(zero, zero)
  }

  /**
   * What happens when a pair has no pairwise result. `Abort` is the code as
   * written (the LookupError is not caught and ends the whole run); `Skip`
   * leaves both scores of that pair unchanged and goes on.
   */
  datatype MissingPolicy = Abort | Skip

  predicate PairsIn(pairs: seq<Pair>, s: TargetScores)
  {
    forall p :: p in pairs ==> p.0 in s.mwu && p.1 in s.mwu && p.0 in s.fet && p.1 in s.fet
  }

  /** The pair loop of one target: the scores after all pairs, or the first pair without a result. */
  function ScorePairs(pairs: seq<Pair>, target: string, seed: string, results: seq<TargetResult>,
                      th: Thresholds, policy: MissingPolicy, s: TargetScores): (r: Result<TargetScores, Pair>)
    requires PairsIn(pairs, s)
    ensures r.Ok? ==> r.value.mwu.Keys == s.mwu.Keys && r.value.fet.Keys == s.fet.Keys
    decreases |pairs|
  {
    if pairs == [] then Ok(s)
    else
      assert forall p :: p in pairs[1..] ==> p in pairs;
      match FirstMatch(results, pairs[0], target, seed)
      case None =>
        if policy == Abort then Err(pairs[0])
        else ScorePairs(pairs[1..], target, seed, results, th, policy, s)
      case Some(e) =>
        ScorePairs(pairs[1..], target, seed, results, th, policy, ScorePair(s, pairs[0], e, th))
  }

  /**
   * The pair loop fails exactly when the policy is to abort and some pair has
   * no result; the error names such a pair.
   */
  lemma {:induction false} ScorePairsOutcome(pairs: seq<Pair>, target: string, seed: string, results: seq<TargetResult>,
                                             th: Thresholds, policy: MissingPolicy, s: TargetScores)
    requires PairsIn(pairs, s)
    ensures var r := ScorePairs(pairs, target, seed, results, th, policy, s);
            && (r.Ok? <==> policy == Skip || forall p :: p in pairs ==> FirstMatch(results, p, target, seed).Some?)
            && (r.Err? ==> policy == Abort && r.error in pairs && FirstMatch(results, r.error, target, seed).None?)
    decreases |pairs|
  {
    if pairs != [] {
      assert forall p :: p in pairs[1..] ==> p in pairs;
      assert pairs == [pairs[0]] + pairs[1..];
      assert pairs[0] in pairs;
      match FirstMatch(results, pairs[0], target, seed)
      case None =>
        ScorePairsOutcome(pairs[1..], target, seed, results, th, policy, s);
      case Some(e) =>
        ScorePairsOutcome(pairs[1..], target, seed, results, th, policy, ScorePair(s, pairs[0], e, th));
    }
  }

  /** One target of calculate_ranking: every pair of the fuzzers, scored from zero. */
  function TargetScoresOf(fuzzers: seq<string>, target: string, seed: string, results: seq<TargetResult>,
                          th: Thresholds, policy: MissingPolicy): (r: Result<TargetScores, Pair>)
    ensures r.Ok? ==> (forall f :: f in r.value.mwu <==> f in fuzzers) && (forall f :: f in r.value.fet <==> f in fuzzers)
  {
    PairsWithin(fuzzers);
    ScorePairs(Pairs(fuzzers), target, seed, results, th, policy, ZeroScores(fuzzers))
  }

  /** The two rules of one pair, as the source's in-place updates of both score maps. */
  method AdjustScores(mwu: map<string, int>, fet: map<string, int>, pair: Pair, e: TargetResult, th: Thresholds)
    returns (scoreMwu: map<string, int>, scoreFet: map<string, int>)
    requires pair.0 in mwu && pair.1 in mwu && pair.0 in fet && pair.1 in fet
    ensures TargetScores(scoreMwu, scoreFet) == ScorePair(TargetScores(mwu, fet), pair, e, th)
  {
    scoreMwu, scoreFet := mwu, fet;
    ApplyNoChange(mwu, pair);
    ApplyNoChange(fet, pair);
    if e.pMwu < th.p {
      if e.a12 < th.a12First {
        scoreMwu := scoreMwu[pair.0 := scoreMwu[pair.0] + 1];
        scoreMwu := scoreMwu[pair.1 := scoreMwu[pair.1] - 1];
        ApplyBaseWins(mwu, pair);
      } else if e.a12 > th.a12Second {
        scoreMwu := scoreMwu[pair.0 := scoreMwu[pair.0] - 1];
        scoreMwu := scoreMwu[pair.1 := scoreMwu[pair.1] + 1];
        ApplyCompareWins(mwu, pair);
      }
    }
    if e.pFet < th.p {
      if e.oddsRatio > th.oddsRatio1 {
        scoreFet := scoreFet[pair.0 := scoreFet[pair.0] + 1];
        scoreFet := scoreFet[pair.1 := scoreFet[pair.1] - 1];
        ApplyBaseWins(fet, pair);
      } else if e.a12 < th.oddsRatio2 {
        scoreFet := scoreFet[pair.0 := scoreFet[pair.0] - 1];
        scoreFet := scoreFet[pair.1 := scoreFet[pair.1] + 1];
        ApplyCompareWins(fet, pair);
      }
    }
  }

  /**
   * The pair loop of calculate_ranking for one target: both score maps start
   * at 0, and every pair with a result adjusts them by its two verdicts.
   */
  method ScoreTarget(fuzzers: seq<string>, pairs: seq<Pair>, target: string, seed: string,
                     results: seq<TargetResult>, th: Thresholds, policy: MissingPolicy)
    returns (r: Result<TargetScores, Pair>)
    requires forall p :: p in pairs ==> p.0 in fuzzers && p.1 in fuzzers
    ensures r == ScorePairs(pairs, target, seed, results, th, policy, ZeroScores(fuzzers))
  {
    var scoreMwu := map f | f in fuzzers :: 0;
    var scoreFet := scoreMwu;
    for i := 0 to |pairs|
      invariant scoreMwu.Keys == scoreFet.Keys == ZeroScores(fuzzers).mwu.Keys
      invariant ScorePairs(pairs, target, seed, results, th, policy, ZeroScores(fuzzers))
                == ScorePairs(pairs[i..], target, seed, results, th, policy, TargetScores(scoreMwu, scoreFet))
    {
      var pair := pairs[i];
      assert pairs[i..][0] == pair && pairs[i..][1..] == pairs[i + 1..];
      assert pair in pairs;
      var found := GetStats(pair, target, seed, results);
      if found.None? {
        if policy == Abort {
          return Err(pair);
        }
      } else {
        scoreMwu, scoreFet := AdjustScores(scoreMwu, scoreFet, pair, found.value, th);
      }
    }
    r := Ok(TargetScores(scoreMwu, scoreFet));
  }

  // ---------------------------------------------------------------------------
  // What the scores of one target satisfy
  // ---------------------------------------------------------------------------

  /** The sum of the scores of the keys in `ks`. */
  function SumScores(ks: seq<string>, m: map<string, int>): int
    requires forall k :: k in ks ==> k in m
  {
    if ks == [] then 0 else m[ks[0]] + SumScores(ks[1..], m)
  }

  lemma {:induction false} SumScoresUpdate(ks: seq<string>, m: map<string, int>, k: string, x: int)
    requires NoDup(ks) && (forall j :: j in ks ==> j in m) && k in m
    ensures SumScores(ks, m[k := x]) == SumScores(ks, m) + (if k in ks then x - m[k] else 0)
  {
    if ks != [] {
      assert NoDup(ks[1..]) by {
        forall i, j | 0 <= i < j < |ks[1..]| ensures ks[1..][i] != ks[1..][j] {
          assert ks[1..][i] == ks[i + 1] && ks[1..][j] == ks[j + 1];
        }
      }
      SumScoresUpdate(ks[1..], m, k, x);
      if ks[0] == k {
        assert k !in ks[1..] by {
          forall i | 0 <= i < |ks[1..]| ensures ks[1..][i] != k {
            assert ks[1..][i] == ks[i + 1];
          }
        }
      }
    }
  }

  /**
   * The command line sets the two A12 thresholds independently. When
   * T_a1 > T_a2 there is no draw on a significant p-value: the first branch
   * wins below T_a1 and the second from T_a1 on, so an A12 at either
   * threshold moves the score.
   */
  lemma A12CrossedThresholds(e: TargetResult, th: Thresholds)
    requires th.a12Second < th.a12First && e.pMwu < th.p
    ensures e.a12 < th.a12First ==> MwuVerdict(e, th) == BaseWins
    ensures e.a12 >= th.a12First ==> MwuVerdict(e, th) == CompareWins
  {
  }

  /** One pair's adjustment is zero-sum over the whole map. */
  lemma ApplyKeepsSum(ks: seq<string>, m: map<string, int>, pair: Pair, v: Verdict)
    requires IsOrderedDict(ks, m) && pair.0 in m && pair.1 in m
    ensures SumScores(ks, Apply(m, pair, v)) == SumScores(ks, m)
  {
    var m1 := m[pair.0 := m[pair.0] + Gain(v)];
    SumScoresUpdate(ks, m, pair.0, m[pair.0] + Gain(v));
    SumScoresUpdate(ks, m1, pair.1, m1[pair.1] - Gain(v));
  }

  /** How many of `pairs` involve `x`. */
  function Involving(pairs: seq<Pair>, x: string): nat
  {
    if pairs == [] then 0
    else (if pairs[0].0 == x || pairs[0].1 == x then 1 else 0) + Involving(pairs[1..], x)
  }

  /** The pair loop keeps the sum of each score map. */
  lemma {:induction false} ScorePairsKeepsSums(ks: seq<string>, pairs: seq<Pair>, target: string, seed: string,
                                               results: seq<TargetResult>, th: Thresholds, policy: MissingPolicy,
                                               s: TargetScores)
    requires IsOrderedDict(ks, s.mwu) && IsOrderedDict(ks, s.fet) && PairsIn(pairs, s)
    requires ScorePairs(pairs, target, seed, results, th, policy, s).Ok?
    ensures var s' := ScorePairs(pairs, target, seed, results, th, policy, s).value;
            SumScores(ks, s'.mwu) == SumScores(ks, s.mwu) && SumScores(ks, s'.fet) == SumScores(ks, s.fet)
    decreases |pairs|
  {
    if pairs != [] {
      assert forall p :: p in pairs[1..] ==> p in pairs;
      match FirstMatch(results, pairs[0], target, seed)
      case None =>
        ScorePairsKeepsSums(ks, pairs[1..], target, seed, results, th, policy, s);
      case Some(e) =>
        ApplyKeepsSum(ks, s.mwu, pairs[0], MwuVerdict(e, th));
        ApplyKeepsSum(ks, s.fet, pairs[0], FetVerdict(e, th));
        ScorePairsKeepsSums(ks, pairs[1..], target, seed, results, th, policy, ScorePair(s, pairs[0], e, th));
    }
  }

  /** One pair moves a score by at most one, and only a score of its own two fuzzers. */
  lemma ApplyDrift(m: map<string, int>, pair: Pair, v: Verdict, x: string)
    requires pair.0 in m && pair.1 in m && x in m
    ensures var bound := if pair.0 == x || pair.1 == x then 1 else 0;
            Apply(m, pair, v)[x] - m[x] <= bound && m[x] - Apply(m, pair, v)[x] <= bound
  {
    ApplyEffect(m, pair, v);
  }

  /** The pair loop moves each score by at most one per pair that involves its fuzzer. */
  lemma {:induction false} ScorePairsDrift(pairs: seq<Pair>, target: string, seed: string,
                                           results: seq<TargetResult>, th: Thresholds, policy: MissingPolicy,
                                           s: TargetScores, x: string)
    requires PairsIn(pairs, s) && x in s.mwu && x in s.fet
    requires ScorePairs(pairs, target, seed, results, th, policy, s).Ok?
    ensures var s' := ScorePairs(pairs, target, seed, results, th, policy, s).value;
            && s'.mwu[x] - s.mwu[x] <= Involving(pairs, x) && s.mwu[x] - s'.mwu[x] <= Involving(pairs, x)
            && s'.fet[x] - s.fet[x] <= Involving(pairs, x) && s.fet[x] - s'.fet[x] <= Involving(pairs, x)
    decreases |pairs|
  {
    if pairs != [] {
      assert forall p :: p in pairs[1..] ==> p in pairs;
      match FirstMatch(results, pairs[0], target, seed)
      case None =>
        ScorePairsDrift(pairs[1..], target, seed, results, th, policy, s, x);
      case Some(e) =>
        ApplyDrift(s.mwu, pairs[0], MwuVerdict(e, th), x);
        ApplyDrift(s.fet, pairs[0], FetVerdict(e, th), x);
        ScorePairsDrift(pairs[1..], target, seed, results, th, policy, ScorePair(s, pairs[0], e, th), x);
    }
  }

  lemma {:induction false} InvolvingPairsWith(x: string, rest: seq<string>, y: string)
    requires NoDup(rest) && x !in rest
    ensures Involving(PairsWith(x, rest), y) == if y == x then |rest| else if y in rest then 1 else 0
  {
    if rest != [] {
      assert PairsWith(x, rest)[1..] == PairsWith(x, rest[1..]);
      assert NoDup(rest[1..]) by {
        forall i, j | 0 <= i < j < |rest[1..]| ensures rest[1..][i] != rest[1..][j] {
          assert rest[1..][i] == rest[i + 1] && rest[1..][j] == rest[j + 1];
        }
      }
      InvolvingPairsWith(x, rest[1..], y);
      if rest[0] == y {
        assert y !in rest[1..] by {
          forall i | 0 <= i < |rest[1..]| ensures rest[1..][i] != y {
            assert rest[1..][i] == rest[i + 1];
          }
        }
      } else {
        assert y in rest <==> y in rest[1..] by {
          assert rest == [rest[0]] + rest[1..];
        }
      }
    }
  }

  lemma {:induction false} InvolvingAppend(a: seq<Pair>, b: seq<Pair>, y: string)
    ensures Involving(a + b, y) == Involving(a, y) + Involving(b, y)
  {
    if a == [] {
      assert a + b == b;
    } else {
      assert (a + b)[1..] == a[1..] + b;
      InvolvingAppend(a[1..], b, y);
    }
  }

  /** Among the pairs of n distinct fuzzers, each fuzzer takes part in n - 1 (none if it is not one of them). */
  lemma {:induction false} InvolvingPairs(fs: seq<string>, y: string)
    requires NoDup(fs)
    ensures Involving(Pairs(fs), y) == if y in fs then |fs| - 1 else 0
  {
    if fs != [] {
      var x, rest := fs[0], fs[1..];
      assert NoDup(rest) by {
        forall i, j | 0 <= i < j < |rest| ensures rest[i] != rest[j] {
          assert rest[i] == fs[i + 1] && rest[j] == fs[j + 1];
        }
      }
      assert x !in rest by {
        forall k | 0 <= k < |rest| ensures rest[k] != x {
          assert rest[k] == fs[k + 1];
        }
      }
      InvolvingAppend(PairsWith(x, rest), Pairs(rest), y);
      InvolvingPairsWith(x, rest, y);
      InvolvingPairs(rest, y);
      assert fs == [x] + rest;
    }
  }

  /**
   * After all pairs of a target, both score maps sum to 0 and every score lies
   * in [-(n - 1), n - 1] for n distinct fuzzers.
   */
  lemma TargetScoresBounds(fuzzers: seq<string>, target: string, seed: string, results: seq<TargetResult>,
                           th: Thresholds, policy: MissingPolicy, x: string)
    requires NoDup(fuzzers) && x in fuzzers
    requires TargetScoresOf(fuzzers, target, seed, results, th, policy).Ok?
    ensures var s := TargetScoresOf(fuzzers, target, seed, results, th, policy).value;
            && SumScores(fuzzers, s.mwu) == 0 && SumScores(fuzzers, s.fet) == 0
            && -(|fuzzers| - 1) <= s.mwu[x] <= |fuzzers| - 1
            && -(|fuzzers| - 1) <= s.fet[x] <= |fuzzers| - 1
  {
    var z := ZeroScores(fuzzers);
    PairsWithin(fuzzers);
    ScorePairsKeepsSums(fuzzers, Pairs(fuzzers), target, seed, results, th, policy, z);
    ScorePairsDrift(Pairs(fuzzers), target, seed, results, th, policy, z, x);
    InvolvingPairs(fuzzers, x);
    SumScoresZero(fuzzers, z.mwu);
  }

  lemma {:induction false} SumScoresZero(ks: seq<string>, m: map<string, int>)
    requires forall k :: k in ks ==> k in m && m[k] == 0
    ensures SumScores(ks, m) == 0
  {
    if ks != [] {
      SumScoresZero(ks[1..], m);
    }
  }

  /** With no significant p-value anywhere, no pair moves either score. */
  lemma {:induction false} InsignificantKeepsScores(pairs: seq<Pair>, target: string, seed: string,
                                                    results: seq<TargetResult>, th: Thresholds,
                                                    policy: MissingPolicy, s: TargetScores)
    requires PairsIn(pairs, s)
    requires ScorePairs(pairs, target, seed, results, th, policy, s).Ok?
    requires forall i :: 0 <= i < |results| ==> results[i].pMwu >= th.p && results[i].pFet >= th.p
    ensures ScorePairs(pairs, target, seed, results, th, policy, s).value == s
    decreases |pairs|
  {
    if pairs != [] {
      assert forall p :: p in pairs[1..] ==> p in pairs;
      match FirstMatch(results, pairs[0], target, seed)
      case None =>
        InsignificantKeepsScores(pairs[1..], target, seed, results, th, policy, s);
      case Some(e) =>
        assert MwuVerdict(e, th) == NoChange && FetVerdict(e, th) == NoChange;
        ApplyNoChange(s.mwu, pairs[0]);
        ApplyNoChange(s.fet, pairs[0]);
        InsignificantKeepsScores(pairs[1..], target, seed, results, th, policy, s);
    }
  }

  /** The pairs that have a pairwise result for this target and seed. */
  function Resolvable(pairs: seq<Pair>, target: string, seed: string, results: seq<TargetResult>): (rs: seq<Pair>)
    ensures forall p :: p in rs <==> p in pairs && FirstMatch(results, p, target, seed).Some?
  {
    if pairs == [] then []
    else
      var rest := Resolvable(pairs[1..], target, seed, results);
      assert pairs == [pairs[0]] + pairs[1..];
      if FirstMatch(results, pairs[0], target, seed).Some? then [pairs[0]] + rest else rest
  }

  /**
   * Skipping a missing pair is the same as never having enumerated it: the
   * other pairs contribute exactly what they would have anyway.
   */
  lemma {:induction false} SkipIgnoresMissing(pairs: seq<Pair>, target: string, seed: string,
                                              results: seq<TargetResult>, th: Thresholds, s: TargetScores)
    requires PairsIn(pairs, s)
    ensures PairsIn(Resolvable(pairs, target, seed, results), s)
    ensures ScorePairs(pairs, target, seed, results, th, Skip, s)
            == ScorePairs(Resolvable(pairs, target, seed, results), target, seed, results, th, Abort, s)
    decreases |pairs|
  {
    if pairs != [] {
      assert forall p :: p in pairs[1..] ==> p in pairs;
      var rest := Resolvable(pairs[1..], target, seed, results);
      match FirstMatch(results, pairs[0], target, seed)
      case None =>
        SkipIgnoresMissing(pairs[1..], target, seed, results, th, s);
      case Some(e) =>
        var s1 := ScorePair(s, pairs[0], e, th);
        SkipIgnoresMissing(pairs[1..], target, seed, results, th, s1);
        assert ([pairs[0]] + rest)[1..] == rest;
    }
  }
}
