/**
 * calculate_ranking of calc_scores.py: reading the budgets back from the name
 * of a statistics database, scoring every target, ranking the scores,
 * averaging the ranks per fuzzer and sorting the averages; and the
 * insert-if-absent storage of the two resulting rankings.
 */
module CalcScores {
  import opened Wrappers
  import opened Ranker
  import opened Scorer
  import SC = StatisticalComparison

  // ---------------------------------------------------------------------------
  // Budgets from the file name (fields 3 and 7 of basename.split("_"))
  // ---------------------------------------------------------------------------

  /** The parts joined back with the separator between them. */
  function Join(parts: seq<string>, sep: char): string
    requires |parts| >= 1
  {
    if |parts| == 1 then parts[0] else parts[0] + [sep] + Join(parts[1..], sep)
  }

  /** Python's `s.split(sep)` for a one-character separator. */
  function Split(s: string, sep: char): (parts: seq<string>)
    ensures |parts| >= 1
    ensures forall i :: 0 <= i < |parts| ==> sep !in parts[i]
  {
    if s == [] then [""]
    else
      var rest := Split(s[1..], sep);
      if s[0] == sep then [""] + rest
      else [[s[0]] + rest[0]] + rest[1..]
  }

  /** Joining the parts with the separator gives back the text. */
  lemma {:induction false} SplitJoin(s: string, sep: char)
    ensures Join(Split(s, sep), sep) == s
  {
    if s != [] {
      var rest := Split(s[1..], sep);
      SplitJoin(s[1..], sep);
      assert s == [s[0]] + s[1..];
      if s[0] != sep {
        var parts := [[s[0]] + rest[0]] + rest[1..];
        assert parts[1..] == rest[1..];
      }
    }
  }

  /** Text without the separator is a single part. */
  lemma {:induction false} SplitNoSep(s: string, sep: char)
    requires sep !in s
    ensures Split(s, sep) == [s]
  {
    if s != [] {
      assert sep !in s[1..] by {
        forall i | 0 <= i < |s[1..]| ensures s[1..][i] != sep {
          assert s[1..][i] == s[i + 1];
        }
      }
      SplitNoSep(s[1..], sep);
      assert s == [s[0]] + s[1..];
    }
  }

  /** Splitting around one separator splits both sides independently. */
  lemma {:induction false} SplitAround(a: string, sep: char, b: string)
    ensures Split(a + [sep] + b, sep) == Split(a, sep) + Split(b, sep)
  {
    if a == [] {
      assert a + [sep] + b == [sep] + b;
    } else {
      assert (a + [sep] + b)[1..] == a[1..] + [sep] + b;
      SplitAround(a[1..], sep, b);
    }
  }

  predicate AllDigits(s: string)
  {
    |s| >= 1 && forall i :: 0 <= i < |s| ==> SC.IsDigit(s[i])
  }

  /** The value of a string of decimal digits. */
  function DigitsValue(s: string): nat
    requires forall i :: 0 <= i < |s| ==> SC.IsDigit(s[i])
  {
    if s == [] then 0
    else
      assert SC.IsDigit(s[|s| - 1]);
      DigitsValue(s[..|s| - 1]) * 10 + (s[|s| - 1] as int - '0' as int)
  }

  /** Python's `int(s)` on text without surrounding blanks or digit-group underscores. */
  function ParseInt(s: string): (r: Option<int>)
    ensures AllDigits(s) ==> r.Some? && r.value >= 0
    ensures r.Some? ==> |s| >= 1 && (AllDigits(s) || ((s[0] == '-' || s[0] == '+') && AllDigits(s[1..])))
    ensures r.Some? && s[0] == '-' ==> r.value <= 0
  {
    if AllDigits(s) then Some(DigitsValue(s))
    else if |s| >= 2 && (s[0] == '-' || s[0] == '+') && AllDigits(s[1..]) then
      Some(if s[0] == '-' then -(DigitsValue(s[1..]) as int) else DigitsValue(s[1..]))
    else None
  }

  lemma {:induction false} DigitsValueOfNat(n: nat)
    ensures DigitsValue(SC.NatToString(n)) == n
  {
    if n >= 10 {
      var s := SC.NatToString(n);
      assert s[..|s| - 1] == SC.NatToString(n / 10);
      DigitsValueOfNat(n / 10);
    }
  }

  /** `int(str(n)) == n`. */
  lemma ParseIntOfString(n: int)
    ensures ParseInt(SC.IntToString(n)) == Some(n)
  {
    if n < 0 {
      var d := SC.NatToString(-n);
      var s := "-" + d;
      assert SC.IntToString(n) == s;
      assert s[1..] == d;
      assert !AllDigits(s) by { assert !SC.IsDigit(s[0]); }
      assert AllDigits(d);
      DigitsValueOfNat(-n);
      assert ParseInt(s) == Some(-(DigitsValue(d) as int));
    } else {
      DigitsValueOfNat(n);
      assert AllDigits(SC.NatToString(n));
    }
  }

  lemma IntToStringNoUnderscore(n: int)
    ensures '_' !in SC.IntToString(n)
  {
    var s := SC.IntToString(n);
    forall i | 0 <= i < |s| ensures s[i] != '_' {
      if n < 0 && i > 0 {
        assert s[i] == SC.NatToString(-n)[i - 1];
      }
    }
  }

  /** A leading field without the separator splits off as the first part. */
  lemma SplitPrefixed(f: string, rest: string)
    requires '_' !in f
    ensures Split(f + "_" + rest, '_') == [f] + Split(rest, '_')
  {
    SplitAround(f, '_', rest);
    SplitNoSep(f, '_');
  }

  /**
   * calculate_ranking's `max_runs = int(foo[3])` and `max_time = int(foo[7])`. None
   * stands for the IndexError of a name with too few fields and the ValueError
   * of a field that is not an integer.
   */
  function ParseBudgets(basename: string): (r: Option<(int, int)>)
    ensures r.Some? <==> |Split(basename, '_')| >= 8 && ParseInt(Split(basename, '_')[3]).Some?
                          && ParseInt(Split(basename, '_')[7]).Some?
    ensures r.Some? ==> Some(r.value.0) == ParseInt(Split(basename, '_')[3])
                        && Some(r.value.1) == ParseInt(Split(basename, '_')[7])
  {
    var fields := Split(basename, '_');
    if |fields| < 8 then None
    else
      match (ParseInt(fields[3]), ParseInt(fields[7]))
      case (Some(maxRuns), Some(maxTime)) => Some((maxRuns, maxTime))
      case _ => None
  }

  /** The database name, field by field. */
  lemma NameShape(r: string, n: string, t: string, seed: string)
    ensures "stat_db_r_" + r + "_ta_" + n + "_ti_" + t + "_" + seed + ".db"
            == "stat" + "_" + ("db" + "_" + ("r" + "_" + (r + "_" + ("ta" + "_" + (n + "_" + ("ti" + "_" + (t + "_" + (seed + ".db"))))))))
  {
  }

  /**
   * Reading the budgets back from a name written by the statistics stage
   * gives the run and time budgets it was written with, whatever the seed.
   */
  lemma BudgetsRoundTrip(maxRuns: int, targetCount: int, maxTime: int, seed: string)
    ensures ParseBudgets(SC.StatsDbName(maxRuns, targetCount, maxTime, seed)) == Some((maxRuns, maxTime))
  {
    var r, n, t := SC.IntToString(maxRuns), SC.IntToString(targetCount), SC.IntToString(maxTime);
    IntToStringNoUnderscore(maxRuns);
    IntToStringNoUnderscore(targetCount);
    IntToStringNoUnderscore(maxTime);
    var f7 := t + "_" + (seed + ".db");
    var f6 := "ti" + "_" + f7;
    var f5 := n + "_" + f6;
    var f4 := "ta" + "_" + f5;
    var f3 := r + "_" + f4;
    var f2 := "r" + "_" + f3;
    var f1 := "db" + "_" + f2;
    NameShape(r, n, t, seed);
    SplitPrefixed(t, seed + ".db");
    assert Split(f7, '_')[0] == t && |Split(f7, '_')| >= 2;
    SplitPrefixed("ti", f7);
    assert Split(f6, '_')[1] == t;
    SplitPrefixed(n, f6);
    assert Split(f5, '_')[2] == t;
    SplitPrefixed("ta", f5);
    assert Split(f4, '_')[3] == t;
    SplitPrefixed(r, f4);
    assert Split(f3, '_')[0] == r && Split(f3, '_')[4] == t;
    SplitPrefixed("r", f3);
    assert Split(f2, '_')[1] == r && Split(f2, '_')[5] == t;
    SplitPrefixed("db", f2);
    assert Split(f1, '_')[2] == r && Split(f1, '_')[6] == t;
    SplitPrefixed("stat", f1);
    assert Split("stat" + "_" + f1, '_')[3] == r && Split("stat" + "_" + f1, '_')[7] == t;
    ParseIntOfString(maxRuns);
    ParseIntOfString(maxTime);
  }

  // ---------------------------------------------------------------------------
  // Stable ascending sort of (fuzzer, average rank) items
  // ---------------------------------------------------------------------------

  /** One (fuzzer, average rank) item of a ranking. */
  type Entry = (string, real)

  predicate SortedByValue(s: seq<Entry>)
  {
    forall i, j :: 0 <= i < j < |s| ==> s[i].1 <= s[j].1
  }

  /** Places `e` before the first item whose value is not smaller. */
  function Insert(e: Entry, s: seq<Entry>): (r: seq<Entry>)
    ensures |r| == |s| + 1
  {
    if s == [] then [e]
    else if e.1 <= s[0].1 then [e] + s
    else [s[0]] + Insert(e, s[1..])
  }

  lemma {:induction false} InsertPermutes(e: Entry, s: seq<Entry>)
    ensures multiset(Insert(e, s)) == multiset(s) + multiset{e}
  {
    if s != [] && e.1 > s[0].1 {
      InsertPermutes(e, s[1..]);
      assert s == [s[0]] + s[1..];
    }
  }

  lemma {:induction false} InsertSorted(e: Entry, s: seq<Entry>)
    requires SortedByValue(s)
    ensures SortedByValue(Insert(e, s))
    ensures forall i :: 0 <= i < |Insert(e, s)| ==> Insert(e, s)[i] == e || Insert(e, s)[i] in s
  {
    if s != [] && e.1 > s[0].1 {
      var rest := Insert(e, s[1..]);
      InsertSorted(e, s[1..]);
      var r := [s[0]] + rest;
      forall i, j | 0 <= i < j < |r| ensures r[i].1 <= r[j].1 {
        if i == 0 {
          assert r[j] == rest[j - 1];
          if r[j] != e {
            assert r[j] in s[1..];
          }
        } else {
          assert r[i] == rest[i - 1] && r[j] == rest[j - 1];
        }
      }
      forall i | 0 <= i < |r| ensures r[i] == e || r[i] in s {
        if i > 0 {
          assert r[i] == rest[i - 1];
        }
      }
    }
  }

  /** `sorted(items, key=lambda item: item[1])`. */
  function SortByValue(items: seq<Entry>): (r: seq<Entry>)
    ensures SortedByValue(r)
    ensures multiset(r) == multiset(items)
  {
    if items == [] then []
    else
      var rest := SortByValue(items[1..]);
      InsertSorted(items[0], rest);
      InsertPermutes(items[0], rest);
      assert items == [items[0]] + items[1..];
      Insert(items[0], rest)
  }

  /** The items whose value is `v`, in order. */
  function WithValue(s: seq<Entry>, v: real): (r: seq<Entry>)
  {
    if s == [] then [] else (if s[0].1 == v then [s[0]] else []) + WithValue(s[1..], v)
  }

  lemma {:induction false} InsertWithValue(e: Entry, s: seq<Entry>, v: real)
    ensures WithValue(Insert(e, s), v) == (if e.1 == v then [e] else []) + WithValue(s, v)
  {
    if s == [] {
      assert WithValue([e], v) == (if e.1 == v then [e] else []) + WithValue([], v);
    } else if e.1 <= s[0].1 {
      assert ([e] + s)[1..] == s;
    } else {
      var rest := Insert(e, s[1..]);
      assert ([s[0]] + rest)[1..] == rest;
      InsertWithValue(e, s[1..], v);
      if e.1 == v {
        assert s[0].1 != v;
        assert WithValue(Insert(e, s), v) == WithValue(rest, v) == [e] + WithValue(s[1..], v);
      } else {
        assert WithValue(rest, v) == WithValue(s[1..], v);
      }
    }
  }

  /** The sort is stable: items with equal values keep their relative order. */
  lemma {:induction false} SortIsStable(items: seq<Entry>, v: real)
    ensures WithValue(SortByValue(items), v) == WithValue(items, v)
  {
    if items != [] {
      SortIsStable(items[1..], v);
      InsertWithValue(items[0], SortByValue(items[1..]), v);
    }
  }

  /** Sorting keeps the sum of the values. */
  lemma {:induction false} SortKeepsSum(items: seq<Entry>)
    ensures SumValues(SortByValue(items)) == SumValues(items)
  {
    if items != [] {
      SortKeepsSum(items[1..]);
      InsertSum(items[0], SortByValue(items[1..]));
    }
  }

  lemma {:induction false} InsertSum(e: Entry, s: seq<Entry>)
    ensures SumValues(Insert(e, s)) == e.1 + SumValues(s)
  {
    if s != [] && e.1 > s[0].1 {
      InsertSum(e, s[1..]);
      assert ([s[0]] + Insert(e, s[1..]))[1..] == Insert(e, s[1..]);
    } else if s != [] {
      assert ([e] + s)[1..] == s;
    }
  }

  /** The fuzzer names of a list of items. */
  function Names(items: seq<Entry>): (names: seq<string>)
    ensures |names| == |items|
  {
    seq(|items|, i requires 0 <= i < |items| => items[i].0)
  }

  lemma {:induction false} InsertNames(e: Entry, s: seq<Entry>)
    ensures multiset(Names(Insert(e, s))) == multiset(Names(s)) + multiset{e.0}
  {
    if s != [] {
      assert Names(s) == [s[0].0] + Names(s[1..]);
      if e.1 > s[0].1 {
        InsertNames(e, s[1..]);
        assert Names([s[0]] + Insert(e, s[1..])) == [s[0].0] + Names(Insert(e, s[1..]));
      } else {
        assert Names([e] + s) == [e.0] + Names(s);
      }
    }
  }

  /** Sorting keeps every fuzzer exactly as often as before. */
  lemma {:induction false} SortKeepsNames(items: seq<Entry>)
    ensures multiset(Names(SortByValue(items))) == multiset(Names(items))
  {
    if items != [] {
      SortKeepsNames(items[1..]);
      InsertNames(items[0], SortByValue(items[1..]));
      assert Names(items) == [items[0].0] + Names(items[1..]);
    }
  }

  /** An item with value `v` appears in the filter by `v`. */
  lemma {:induction false} WithValueHas(s: seq<Entry>, v: real, j: int) returns (a: int)
    requires 0 <= j < |s| && s[j].1 == v
    ensures 0 <= a < |WithValue(s, v)| && WithValue(s, v)[a] == s[j]
  {
    var w := WithValue(s[1..], v);
    if j == 0 {
      a := 0;
    } else {
      var a' := WithValueHas(s[1..], v, j - 1);
      if s[0].1 == v {
        a := a' + 1;
        assert WithValue(s, v) == [s[0]] + w;
      } else {
        a := a';
        assert WithValue(s, v) == w;
      }
    }
  }

  /** Two items with value `v` appear in the filter by `v` in their own order. */
  lemma {:induction false} WithValueOrder(s: seq<Entry>, v: real, i: int, j: int) returns (a: int, b: int)
    requires 0 <= i < j < |s| && s[i].1 == v && s[j].1 == v
    ensures 0 <= a < b < |WithValue(s, v)| && WithValue(s, v)[a] == s[i] && WithValue(s, v)[b] == s[j]
  {
    var w := WithValue(s[1..], v);
    if i == 0 {
      var b' := WithValueHas(s[1..], v, j - 1);
      assert WithValue(s, v) == [s[0]] + w;
      a, b := 0, b' + 1;
    } else {
      var a', b' := WithValueOrder(s[1..], v, i - 1, j - 1);
      if s[0].1 == v {
        assert WithValue(s, v) == [s[0]] + w;
        a, b := a' + 1, b' + 1;
      } else {
        assert WithValue(s, v) == w;
        a, b := a', b';
      }
    }
  }

  /** Every item of the filter comes from the list. */
  lemma {:induction false} WithValueFrom(s: seq<Entry>, v: real, a: int) returns (p: int)
    requires 0 <= a < |WithValue(s, v)|
    ensures 0 <= p < |s| && s[p] == WithValue(s, v)[a]
  {
    var w := WithValue(s[1..], v);
    if s[0].1 == v {
      assert WithValue(s, v) == [s[0]] + w;
      if a == 0 {
        p := 0;
      } else {
        var p' := WithValueFrom(s[1..], v, a - 1);
        p := p' + 1;
      }
    } else {
      assert WithValue(s, v) == w;
      var p' := WithValueFrom(s[1..], v, a);
      p := p' + 1;
    }
  }

  /** Two items of the filter come from the list in the filter's order. */
  lemma {:induction false} WithValueFromOrder(s: seq<Entry>, v: real, a: int, b: int) returns (p: int, q: int)
    requires 0 <= a < b < |WithValue(s, v)|
    ensures 0 <= p < q < |s| && s[p] == WithValue(s, v)[a] && s[q] == WithValue(s, v)[b]
  {
    var w := WithValue(s[1..], v);
    if s[0].1 == v {
      assert WithValue(s, v) == [s[0]] + w;
      if a == 0 {
        var q' := WithValueFrom(s[1..], v, b - 1);
        p, q := 0, q' + 1;
      } else {
        var p', q' := WithValueFromOrder(s[1..], v, a - 1, b - 1);
        p, q := p' + 1, q' + 1;
      }
    } else {
      assert WithValue(s, v) == w;
      var p', q' := WithValueFromOrder(s[1..], v, a, b);
      p, q := p' + 1, q' + 1;
    }
  }

  /** Two items that tie after sorting stood in the same order before it. */
  lemma SortTiesKeepOrder(items: seq<Entry>, i: int, j: int) returns (p: int, q: int)
    requires 0 <= i < j < |SortByValue(items)| && SortByValue(items)[i].1 == SortByValue(items)[j].1
    ensures 0 <= p < q < |items| && items[p] == SortByValue(items)[i] && items[q] == SortByValue(items)[j]
  {
    var out := SortByValue(items);
    var v := out[i].1;
    var a, b := WithValueOrder(out, v, i, j);
    SortIsStable(items, v);
    p, q := WithValueFromOrder(items, v, a, b);
  }

  // ---------------------------------------------------------------------------
  // Averaging the per-target ranks
  // ---------------------------------------------------------------------------

  function Sum(xs: seq<real>): real
  {
    if xs == [] then 0.0 else xs[0] + Sum(xs[1..])
  }

  /** `statistics.mean` of a non-empty list. */
  function Mean(xs: seq<real>): real
    requires |xs| >= 1
  {
    Sum(xs) / |xs| as real
  }

  /** The sum of the values of a list of items. */
  function SumValues(items: seq<Entry>): real
  {
    if items == [] then 0.0 else items[0].1 + SumValues(items[1..])
  }

  lemma {:induction false} SumAppend(xs: seq<real>, x: real)
    ensures Sum(xs + [x]) == Sum(xs) + x
  {
    if xs != [] {
      assert (xs + [x])[1..] == xs[1..] + [x];
      SumAppend(xs[1..], x);
    }
  }

  lemma {:induction false} SumBounds(xs: seq<real>, lo: real, hi: real)
    requires forall i :: 0 <= i < |xs| ==> lo <= xs[i] <= hi
    ensures |xs| as real * lo <= Sum(xs) <= |xs| as real * hi
  {
    if xs != [] {
      SumBounds(xs[1..], lo, hi);
    }
  }

  /** A mean lies between the smallest and largest bound of its values. */
  lemma MeanBounds(xs: seq<real>, lo: real, hi: real)
    requires |xs| >= 1
    requires forall i :: 0 <= i < |xs| ==> lo <= xs[i] <= hi
    ensures lo <= Mean(xs) <= hi
  {
    SumBounds(xs, lo, hi);
    var n := |xs| as real;
    assert n * lo / n == lo && n * hi / n == hi;
  }

  /** The mean of a constant list is that constant. */
  lemma MeanOfConstant(xs: seq<real>, c: real)
    requires |xs| >= 1
    requires forall i :: 0 <= i < |xs| ==> xs[i] == c
    ensures Mean(xs) == c
  {
    SumBounds(xs, c, c);
    var n := |xs| as real;
    assert n * c / n == c;
  }

  /** The keys of a list, as a set. */
  function KeySet(keys: seq<string>): set<string>
  {
    set k | k in keys
  }

  /** `all_ranks[key].append(ranks[key])` for every key of the ranks. */
  function AppendRanks(all: map<string, seq<real>>, ranks: map<string, real>): (all': map<string, seq<real>>)
    requires ranks.Keys == all.Keys
    ensures all'.Keys == all.Keys
  {
    map k | k in all :: all[k] + [ranks[k]]
  }

  /** Every list gains exactly one entry, the key's rank, at its end. */
  lemma AppendRanksEffect(all: map<string, seq<real>>, ranks: map<string, real>, k: string)
    requires ranks.Keys == all.Keys && k in all
    ensures |AppendRanks(all, ranks)[k]| == |all[k]| + 1
    ensures AppendRanks(all, ranks)[k][..|all[k]|] == all[k]
    ensures AppendRanks(all, ranks)[k][|all[k]|] == ranks[k]
  {
  }

  /** The loop of calculate_ranking that appends each fuzzer's rank for one target to its rank list. */
  method AppendAll(keys: seq<string>, all: map<string, seq<real>>, ranks: map<string, real>)
    returns (all': map<string, seq<real>>)
    requires IsOrderedDict(keys, ranks) && ranks.Keys == all.Keys
    ensures all' == AppendRanks(all, ranks)
  {
    all' := all;
    for i := 0 to |keys|
      invariant all'.Keys == all.Keys
      invariant forall j :: 0 <= j < i ==> all'[keys[j]] == all[keys[j]] + [ranks[keys[j]]]
      invariant forall k :: k in all && k !in keys[..i] ==> all'[k] == all[k]
    {
      assert forall j :: 0 <= j < i ==> keys[j] != keys[i];
      all' := all'[keys[i] := all'[keys[i]] + [ranks[keys[i]]]];
    }
    assert keys[..|keys|] == keys;
  }

  /** The two rank lists of every fuzzer. */
  datatype RankLists = RankLists(mwu: map<string, seq<real>>, fet: map<string, seq<real>>)

  /** Why calculate_ranking produced no ranking. */
  datatype RankingError =
    | BadValue(row: nat)                                      // read_data: float() raised ValueError on this row
    | NoResults                                               // all_target_results[0]: IndexError
    | BadFileName                                             // foo[3] / foo[7] / int(): IndexError or ValueError
    | MissingPair(target: string, base: string, compare: string)  // get_stats: LookupError

  predicate ListsOver(lists: RankLists, fuzzers: seq<string>)
  {
    lists.mwu.Keys == KeySet(fuzzers) && lists.fet.Keys == KeySet(fuzzers)
  }

  /** One pass of calculate_ranking's target loop: score the pairs, rank both maps, append the ranks. */
  function RankStep(fuzzers: seq<string>, target: string, seed: string, results: seq<TargetResult>,
                    th: Thresholds, policy: MissingPolicy, acc: RankLists): (r: Result<RankLists, RankingError>)
    requires NoDup(fuzzers) && ListsOver(acc, fuzzers)
    ensures r.Ok? ==> ListsOver(r.value, fuzzers)
  {
    match TargetScoresOf(fuzzers, target, seed, results, th, policy)
    case Err(pair) => Err(MissingPair(target, pair.0, pair.1))
    case Ok(s) => Ok(RankLists(AppendRanks(acc.mwu, RankMap(fuzzers, s.mwu)), AppendRanks(acc.fet, RankMap(fuzzers, s.fet))))
  }

  /** calculate_ranking's target loop: score, rank and append, target by target. */
  function RankTargets(fuzzers: seq<string>, targets: seq<string>, seed: string, results: seq<TargetResult>,
                       th: Thresholds, policy: MissingPolicy, acc: RankLists): (r: Result<RankLists, RankingError>)
    requires NoDup(fuzzers) && ListsOver(acc, fuzzers)
    ensures r.Ok? ==> ListsOver(r.value, fuzzers)
    decreases |targets|
  {
    if targets == [] then Ok(acc)
    else
      match RankStep(fuzzers, targets[0], seed, results, th, policy, acc)
      case Err(e) => Err(e)
      case Ok(next) => RankTargets(fuzzers, targets[1..], seed, results, th, policy, next)
  }

  /** Every list of the rank lists has length `len`. */
  predicate ListsOfLength(lists: RankLists, fuzzers: seq<string>, len: nat)
    requires ListsOver(lists, fuzzers)
  {
    forall f :: f in fuzzers ==> |lists.mwu[f]| == len && |lists.fet[f]| == len
  }

  /** The target loop appends exactly one rank per target to every fuzzer's two lists. */
  lemma {:induction false} RankTargetsLengths(fuzzers: seq<string>, targets: seq<string>, seed: string,
                                              results: seq<TargetResult>, th: Thresholds, policy: MissingPolicy,
                                              acc: RankLists, len: nat)
    requires NoDup(fuzzers) && ListsOver(acc, fuzzers) && ListsOfLength(acc, fuzzers, len)
    requires RankTargets(fuzzers, targets, seed, results, th, policy, acc).Ok?
    ensures ListsOfLength(RankTargets(fuzzers, targets, seed, results, th, policy, acc).value, fuzzers, len + |targets|)
    decreases |targets|
  {
    if targets != [] {
      var s := TargetScoresOf(fuzzers, targets[0], seed, results, th, policy).value;
      var next := RankLists(AppendRanks(acc.mwu, RankMap(fuzzers, s.mwu)), AppendRanks(acc.fet, RankMap(fuzzers, s.fet)));
      RankTargetsLengths(fuzzers, targets[1..], seed, results, th, policy, next, len + 1);
    }
  }

  /** Every entry of every list of `m` lies in [lo, hi]. */
  predicate EntriesBetween(m: map<string, seq<real>>, lo: real, hi: real)
  {
    forall k, i :: k in m && 0 <= i < |m[k]| ==> lo <= m[k][i] <= hi
  }

  lemma AppendRanksBetween(all: map<string, seq<real>>, ranks: map<string, real>, lo: real, hi: real)
    requires ranks.Keys == all.Keys && EntriesBetween(all, lo, hi)
    requires forall k :: k in ranks ==> lo <= ranks[k] <= hi
    ensures EntriesBetween(AppendRanks(all, ranks), lo, hi)
  {
    forall k, i | k in all && 0 <= i < |AppendRanks(all, ranks)[k]|
      ensures lo <= AppendRanks(all, ranks)[k][i] <= hi
    {
      AppendRanksEffect(all, ranks, k);
    }
  }

  /** Every per-target rank that the target loop collects lies in [1, n]. */
  lemma {:induction false} RankTargetsBounds(fuzzers: seq<string>, targets: seq<string>, seed: string,
                                             results: seq<TargetResult>, th: Thresholds, policy: MissingPolicy,
                                             acc: RankLists)
    requires NoDup(fuzzers) && ListsOver(acc, fuzzers)
    requires EntriesBetween(acc.mwu, 1.0, |fuzzers| as real) && EntriesBetween(acc.fet, 1.0, |fuzzers| as real)
    requires RankTargets(fuzzers, targets, seed, results, th, policy, acc).Ok?
    ensures var r := RankTargets(fuzzers, targets, seed, results, th, policy, acc).value;
            EntriesBetween(r.mwu, 1.0, |fuzzers| as real) && EntriesBetween(r.fet, 1.0, |fuzzers| as real)
    decreases |targets|
  {
    if targets != [] {
      var s := TargetScoresOf(fuzzers, targets[0], seed, results, th, policy).value;
      forall k | k in s.mwu ensures 1.0 <= RankMap(fuzzers, s.mwu)[k] <= |fuzzers| as real {
        RankMapOrder(fuzzers, s.mwu, k, k);
      }
      forall k | k in s.fet ensures 1.0 <= RankMap(fuzzers, s.fet)[k] <= |fuzzers| as real {
        RankMapOrder(fuzzers, s.fet, k, k);
      }
      AppendRanksBetween(acc.mwu, RankMap(fuzzers, s.mwu), 1.0, |fuzzers| as real);
      AppendRanksBetween(acc.fet, RankMap(fuzzers, s.fet), 1.0, |fuzzers| as real);
      var next := RankLists(AppendRanks(acc.mwu, RankMap(fuzzers, s.mwu)), AppendRanks(acc.fet, RankMap(fuzzers, s.fet)));
      RankTargetsBounds(fuzzers, targets[1..], seed, results, th, policy, next);
    }
  }

  /** No pairwise result is significant at all. */
  predicate AllInsignificant(results: seq<TargetResult>, th: Thresholds)
  {
    forall i :: 0 <= i < |results| ==> results[i].pMwu >= th.p && results[i].pFet >= th.p
  }

  /** Without a significant result every fuzzer ties on every target, at rank (n + 1) / 2. */
  lemma {:induction false} RankTargetsInsignificant(fuzzers: seq<string>, targets: seq<string>, seed: string,
                                                    results: seq<TargetResult>, th: Thresholds,
                                                    policy: MissingPolicy, acc: RankLists)
    requires NoDup(fuzzers) && ListsOver(acc, fuzzers) && AllInsignificant(results, th)
    requires var c := (|fuzzers| + 1) as real / 2.0; EntriesBetween(acc.mwu, c, c) && EntriesBetween(acc.fet, c, c)
    requires RankTargets(fuzzers, targets, seed, results, th, policy, acc).Ok?
    ensures var r := RankTargets(fuzzers, targets, seed, results, th, policy, acc).value;
            var c := (|fuzzers| + 1) as real / 2.0;
            EntriesBetween(r.mwu, c, c) && EntriesBetween(r.fet, c, c)
    decreases |targets|
  {
    if targets != [] {
      var c := (|fuzzers| + 1) as real / 2.0;
      var z := ZeroScores(fuzzers);
      PairsWithin(fuzzers);
      InsignificantKeepsScores(Pairs(fuzzers), targets[0], seed, results, th, policy, z);
      var s := TargetScoresOf(fuzzers, targets[0], seed, results, th, policy).value;
      assert s == z;
      forall k | k in s.mwu ensures RankMap(fuzzers, s.mwu)[k] == c {
        RankMapAllZero(fuzzers, s.mwu, k);
      }
      forall k | k in s.fet ensures RankMap(fuzzers, s.fet)[k] == c {
        RankMapAllZero(fuzzers, s.fet, k);
      }
      AppendRanksBetween(acc.mwu, RankMap(fuzzers, s.mwu), c, c);
      AppendRanksBetween(acc.fet, RankMap(fuzzers, s.fet), c, c);
      var next := RankLists(AppendRanks(acc.mwu, RankMap(fuzzers, s.mwu)), AppendRanks(acc.fet, RankMap(fuzzers, s.fet)));
      RankTargetsInsignificant(fuzzers, targets[1..], seed, results, th, policy, next);
    }
  }

  /** The sum of all ranks collected for the keys `keys`. */
  function Total(keys: seq<string>, all: map<string, seq<real>>): real
    requires forall k :: k in keys ==> k in all
  {
    if keys == [] then 0.0 else Sum(all[keys[0]]) + Total(keys[1..], all)
  }

  lemma {:induction false} TotalAppend(keys: seq<string>, all: map<string, seq<real>>, ranks: map<string, real>)
    requires ranks.Keys == all.Keys && forall k :: k in keys ==> k in all
    ensures Total(keys, AppendRanks(all, ranks)) == Total(keys, all) + SumRanks(keys, ranks)
  {
    if keys != [] {
      TotalAppend(keys[1..], all, ranks);
      SumAppend(all[keys[0]], ranks[keys[0]]);
    }
  }

  /** What the ranks of one target add up to, for n fuzzers: n (n + 1) / 2. */
  function TargetRankSum(n: nat): real
  {
    (n * n + n) as real / 2.0
  }

  /** `t` copies of `p` added up. */
  function Times(t: nat, p: real): real
  {
    if t == 0 then 0.0 else p + Times(t - 1, p)
  }

  lemma {:induction false} TimesIsProduct(t: nat, p: real)
    ensures Times(t, p) == t as real * p
  {
    if t > 0 {
      TimesIsProduct(t - 1, p);
    }
  }

  /** Appending one target's ranks adds n (n + 1) / 2 to the total. */
  lemma AppendRankMapTotal(fuzzers: seq<string>, all: map<string, seq<real>>, scores: map<string, int>)
    requires IsOrderedDict(fuzzers, scores) && all.Keys == scores.Keys
    ensures Total(fuzzers, AppendRanks(all, RankMap(fuzzers, scores))) == Total(fuzzers, all) + TargetRankSum(|fuzzers|)
  {
    TotalAppend(fuzzers, all, RankMap(fuzzers, scores));
    RankMapSum(fuzzers, scores);
  }

  /** A successful target loop is a successful first pass followed by the loop over the other targets. */
  lemma RankTargetsUnfold(fuzzers: seq<string>, targets: seq<string>, seed: string, results: seq<TargetResult>,
                          th: Thresholds, policy: MissingPolicy, acc: RankLists) returns (next: RankLists)
    requires NoDup(fuzzers) && ListsOver(acc, fuzzers) && targets != []
    requires RankTargets(fuzzers, targets, seed, results, th, policy, acc).Ok?
    ensures RankStep(fuzzers, targets[0], seed, results, th, policy, acc).Ok?
    ensures RankStep(fuzzers, targets[0], seed, results, th, policy, acc).value == next
    ensures ListsOver(next, fuzzers) && RankTargets(fuzzers, targets[1..], seed, results, th, policy, next).Ok?
    ensures RankTargets(fuzzers, targets, seed, results, th, policy, acc)
            == RankTargets(fuzzers, targets[1..], seed, results, th, policy, next)
  {
    next := RankStep(fuzzers, targets[0], seed, results, th, policy, acc).value;
  }

  /** One pass of the target loop adds n (n + 1) / 2 to each total. */
  lemma RankStepTotal(fuzzers: seq<string>, target: string, seed: string, results: seq<TargetResult>,
                      th: Thresholds, policy: MissingPolicy, acc: RankLists)
    requires NoDup(fuzzers) && ListsOver(acc, fuzzers)
    requires RankStep(fuzzers, target, seed, results, th, policy, acc).Ok?
    ensures var next := RankStep(fuzzers, target, seed, results, th, policy, acc).value;
            && Total(fuzzers, next.mwu) == Total(fuzzers, acc.mwu) + TargetRankSum(|fuzzers|)
            && Total(fuzzers, next.fet) == Total(fuzzers, acc.fet) + TargetRankSum(|fuzzers|)
  {
    var s := TargetScoresOf(fuzzers, target, seed, results, th, policy).value;
    AppendRankMapTotal(fuzzers, acc.mwu, s.mwu);
    AppendRankMapTotal(fuzzers, acc.fet, s.fet);
  }

  /** Each target adds n (n + 1) / 2 to the total of the collected ranks. */
  lemma {:induction false} RankTargetsTotal(fuzzers: seq<string>, targets: seq<string>, seed: string,
                                            results: seq<TargetResult>, th: Thresholds, policy: MissingPolicy,
                                            acc: RankLists)
    requires NoDup(fuzzers) && ListsOver(acc, fuzzers)
    requires RankTargets(fuzzers, targets, seed, results, th, policy, acc).Ok?
    ensures var r := RankTargets(fuzzers, targets, seed, results, th, policy, acc).value;
            && Total(fuzzers, r.mwu) == Total(fuzzers, acc.mwu) + Times(|targets|, TargetRankSum(|fuzzers|))
            && Total(fuzzers, r.fet) == Total(fuzzers, acc.fet) + Times(|targets|, TargetRankSum(|fuzzers|))
    decreases |targets|
  {
    if targets != [] {
      var next := RankTargetsUnfold(fuzzers, targets, seed, results, th, policy, acc);
      RankStepTotal(fuzzers, targets[0], seed, results, th, policy, acc);
      RankTargetsTotal(fuzzers, targets[1..], seed, results, th, policy, next);
    }
  }

  lemma DivAdd(a: real, b: real, l: real)
    requires l > 0.0
    ensures a / l + b / l == (a + b) / l
  {
    var x, y := a / l, b / l;
    assert x * l == a && y * l == b;
    assert (x + y) * l == a + b;
  }

  /** Under `Skip` the target loop never fails. */
  lemma {:induction false} RankTargetsSkip(fuzzers: seq<string>, targets: seq<string>, seed: string,
                                           results: seq<TargetResult>, th: Thresholds, acc: RankLists)
    requires NoDup(fuzzers) && ListsOver(acc, fuzzers)
    ensures RankTargets(fuzzers, targets, seed, results, th, Skip, acc).Ok?
    decreases |targets|
  {
    if targets != [] {
      PairsWithin(fuzzers);
      ScorePairsOutcome(Pairs(fuzzers), targets[0], seed, results, th, Skip, ZeroScores(fuzzers));
      var s := TargetScoresOf(fuzzers, targets[0], seed, results, th, Skip).value;
      var next := RankLists(AppendRanks(acc.mwu, RankMap(fuzzers, s.mwu)), AppendRanks(acc.fet, RankMap(fuzzers, s.fet)));
      RankTargetsSkip(fuzzers, targets[1..], seed, results, th, next);
    }
  }

  /**
   * A failed target loop names a target that was discovered and a pair of
   * discovered fuzzers that has no pairwise result there; it happens only
   * under `Abort`.
   */
  lemma {:induction false} RankTargetsError(fuzzers: seq<string>, targets: seq<string>, seed: string,
                                            results: seq<TargetResult>, th: Thresholds, policy: MissingPolicy,
                                            acc: RankLists)
    requires NoDup(fuzzers) && ListsOver(acc, fuzzers)
    requires RankTargets(fuzzers, targets, seed, results, th, policy, acc).Err?
    ensures var e := RankTargets(fuzzers, targets, seed, results, th, policy, acc).error;
            && policy == Abort && e.MissingPair? && e.target in targets
            && (e.base, e.compare) in Pairs(fuzzers)
            && FirstMatch(results, (e.base, e.compare), e.target, seed).None?
    decreases |targets|
  {
    assert targets[0] in targets;
    PairsWithin(fuzzers);
    ScorePairsOutcome(Pairs(fuzzers), targets[0], seed, results, th, policy, ZeroScores(fuzzers));
    var r := TargetScoresOf(fuzzers, targets[0], seed, results, th, policy);
    if r.Ok? {
      var s := r.value;
      var next := RankLists(AppendRanks(acc.mwu, RankMap(fuzzers, s.mwu)), AppendRanks(acc.fet, RankMap(fuzzers, s.fet)));
      RankTargetsError(fuzzers, targets[1..], seed, results, th, policy, next);
      assert forall t :: t in targets[1..] ==> t in targets;
    }
  }

  /**
   * The converse of RankTargetsError: under `Abort`, a pair of discovered
   * fuzzers without a pairwise result on any one of the targets makes the
   * target loop fail.
   */
  lemma {:induction false} RankTargetsAbortsOnMissing(fuzzers: seq<string>, targets: seq<string>, seed: string,
                                                      results: seq<TargetResult>, th: Thresholds, acc: RankLists,
                                                      t: string, p: Pair)
    requires NoDup(fuzzers) && ListsOver(acc, fuzzers)
    requires t in targets && p in Pairs(fuzzers) && FirstMatch(results, p, t, seed).None?
    ensures RankTargets(fuzzers, targets, seed, results, th, Abort, acc).Err?
    decreases |targets|
  {
    PairsWithin(fuzzers);
    ScorePairsOutcome(Pairs(fuzzers), targets[0], seed, results, th, Abort, ZeroScores(fuzzers));
    var r := TargetScoresOf(fuzzers, targets[0], seed, results, th, Abort);
    if r.Ok? {
      assert t != targets[0];
      assert t in targets[1..];
      var s := r.value;
      var next := RankLists(AppendRanks(acc.mwu, RankMap(fuzzers, s.mwu)), AppendRanks(acc.fet, RankMap(fuzzers, s.fet)));
      RankTargetsAbortsOnMissing(fuzzers, targets[1..], seed, results, th, next, t, p);
    }
  }

  /** The averaged map `{key: mean(ranks)}` as its items, in key order. */
  function Averaged(keys: seq<string>, all: map<string, seq<real>>): (items: seq<Entry>)
    requires forall k :: k in keys ==> k in all && |all[k]| >= 1
    ensures |items| == |keys|
  {
    seq(|keys|, i requires 0 <= i < |keys| => (keys[i], Mean(all[keys[i]])))
  }

  /** The averaging loop of calculate_ranking over the keys of the rank lists, for either statistic. */
  method Averages(keys: seq<string>, all: map<string, seq<real>>) returns (items: seq<Entry>)
    requires forall k :: k in keys ==> k in all && |all[k]| >= 1
    ensures items == Averaged(keys, all)
  {
    items := [];
    for i := 0 to |keys|
      invariant items == Averaged(keys[..i], all)
    {
      var avg := Mean(all[keys[i]]);
      items := items + [(keys[i], avg)];
      assert Averaged(keys[..i + 1], all) == Averaged(keys[..i], all) + [(keys[i], avg)];
    }
    assert keys[..|keys|] == keys;
  }

  /** Every average is a mean of values in [lo, hi], so lies in [lo, hi] itself. */
  lemma AveragedBetween(keys: seq<string>, all: map<string, seq<real>>, lo: real, hi: real)
    requires forall k :: k in keys ==> k in all && |all[k]| >= 1
    requires EntriesBetween(all, lo, hi)
    ensures forall i :: 0 <= i < |keys| ==> lo <= Averaged(keys, all)[i].1 <= hi
  {
    forall i | 0 <= i < |keys| ensures lo <= Averaged(keys, all)[i].1 <= hi {
      MeanBounds(all[keys[i]], lo, hi);
    }
  }

  /** With lists of one common length, the averages add up to the total over that length. */
  lemma {:induction false} SumValuesAveraged(keys: seq<string>, all: map<string, seq<real>>, len: nat)
    requires len >= 1 && forall k :: k in keys ==> k in all && |all[k]| == len
    ensures SumValues(Averaged(keys, all)) == Total(keys, all) / len as real
  {
    if keys != [] {
      assert Averaged(keys, all)[1..] == Averaged(keys[1..], all);
      SumValuesAveraged(keys[1..], all, len);
      var l := len as real;
      DivAdd(Sum(all[keys[0]]), Total(keys[1..], all), l);
    }
  }

  /** Names of the averaged items are the keys themselves. */
  lemma NamesAveraged(keys: seq<string>, all: map<string, seq<real>>)
    requires forall k :: k in keys ==> k in all && |all[k]| >= 1
    ensures Names(Averaged(keys, all)) == keys
  {
  }

  /** A list all of whose values are `v` is its own filter by `v`. */
  lemma {:induction false} WithValueAll(s: seq<Entry>, v: real)
    requires forall i :: 0 <= i < |s| ==> s[i].1 == v
    ensures WithValue(s, v) == s
  {
    if s != [] {
      WithValueAll(s[1..], v);
      assert s == [s[0]] + s[1..];
    }
  }

  lemma MeanOfTimes(mean: real, total: real, len: nat, p: real)
    requires len >= 1 && mean == total / len as real && total == len as real * p
    ensures mean == p
  {
  }

  /**
   * Averaging rank lists whose entries lie in [1, n], then sorting: the result
   * is sorted, names every fuzzer exactly once and keeps every average in [1, n].
   */
  lemma AveragedRanking(fuzzers: seq<string>, all: map<string, seq<real>>)
    requires forall k :: k in fuzzers ==> k in all && |all[k]| >= 1
    requires EntriesBetween(all, 1.0, |fuzzers| as real)
    ensures var out := SortByValue(Averaged(fuzzers, all));
            && SortedByValue(out)
            && multiset(Names(out)) == multiset(fuzzers)
            && (forall i :: 0 <= i < |out| ==> 1.0 <= out[i].1 <= |fuzzers| as real)
  {
    var items := Averaged(fuzzers, all);
    var out := SortByValue(items);
    SortKeepsNames(items);
    NamesAveraged(fuzzers, all);
    AveragedBetween(fuzzers, all, 1.0, |fuzzers| as real);
    forall i | 0 <= i < |out| ensures 1.0 <= out[i].1 <= |fuzzers| as real {
      assert out[i] in multiset(items);
    }
  }

  /**
   * Rank lists of one common length `len` whose entries add up to `len` times
   * n (n + 1) / 2 average to values that add up to n (n + 1) / 2, before and
   * after sorting.
   */
  lemma AveragedSum(fuzzers: seq<string>, all: map<string, seq<real>>, len: nat, perTarget: real)
    requires len >= 1 && forall k :: k in fuzzers ==> k in all && |all[k]| == len
    requires Total(fuzzers, all) == Times(len, perTarget)
    ensures SumValues(SortByValue(Averaged(fuzzers, all))) == perTarget
  {
    var items := Averaged(fuzzers, all);
    var p := perTarget;
    var total := Total(fuzzers, all);
    SortKeepsSum(items);
    SumValuesAveraged(fuzzers, all, len);
    TimesIsProduct(len, p);
    MeanOfTimes(SumValues(items), total, len, p);
  }

  // ---------------------------------------------------------------------------
  // calculate_ranking
  // ---------------------------------------------------------------------------

  /**
   * What calculate_ranking stores for one run: the configuration (seed, run
   * and time budgets, the targets) and, per statistic, the fuzzers with their
   * average ranks in ascending order of average rank.
   */
  datatype Ranking = Ranking(seed: string, maxRuns: int, maxTargets: nat, targetSet: seq<string>, maxTime: int,
                             intervalScaled: seq<Entry>, dichotomous: seq<Entry>)

  /** The initialisation in calculate_ranking: an empty rank list for every fuzzer, per statistic. */
  function EmptyLists(fuzzers: seq<string>): (lists: RankLists)
    ensures ListsOver(lists, fuzzers) && ListsOfLength(lists, fuzzers, 0)
  {
    var empty: map<string, seq<real>> := map f | f in fuzzers :: [];
    RankLists(empty, empty)
  }

  /** The empty lists total 0 and have no entry outside any bounds. */
  lemma EmptyListsFacts(fuzzers: seq<string>, lo: real, hi: real)
    ensures Total(fuzzers, EmptyLists(fuzzers).mwu) == 0.0 && Total(fuzzers, EmptyLists(fuzzers).fet) == 0.0
    ensures EntriesBetween(EmptyLists(fuzzers).mwu, lo, hi) && EntriesBetween(EmptyLists(fuzzers).fet, lo, hi)
  {
    EmptyTotal(fuzzers, EmptyLists(fuzzers).mwu);
  }

  lemma {:induction false} EmptyTotal(keys: seq<string>, all: map<string, seq<real>>)
    requires forall k :: k in keys ==> k in all && all[k] == []
    ensures Total(keys, all) == 0.0
  {
    if keys != [] {
      EmptyTotal(keys[1..], all);
    }
  }

  lemma TargetsNonEmpty(results: seq<TargetResult>)
    requires results != []
    ensures |Dedup(TargetNames(results))| >= 1
  {
    assert TargetNames(results)[0] in TargetNames(results);
  }

  // ---------------------------------------------------------------------------
  // read_data: converting the rows of the `stats` table
  // ---------------------------------------------------------------------------

  /**
   * The rows of the `stats` table as pairwise results, in table order, or the
   * index of the first row whose conversion raises ValueError.
   */
  function ConvertRows(rows: seq<StatsRow>, parseFloat: string -> Option<real>): (r: Result<seq<TargetResult>, nat>)
    ensures r.Ok? <==> forall i :: 0 <= i < |rows| ==> ToTargetResult(rows[i], parseFloat).Some?
    ensures r.Ok? ==> |r.value| == |rows|
                      && forall i :: 0 <= i < |rows| ==> Some(r.value[i]) == ToTargetResult(rows[i], parseFloat)
    ensures r.Err? ==> r.error < |rows| && ToTargetResult(rows[r.error], parseFloat).None?
                       && forall i :: 0 <= i < r.error ==> ToTargetResult(rows[i], parseFloat).Some?
  {
    if rows == [] then Ok([])
    else
      match ToTargetResult(rows[0], parseFloat)
      case None => Err(0)
      case Some(t) =>
        match ConvertRows(rows[1..], parseFloat)
        case Err(k) =>
          assert forall i :: 1 <= i <= k ==> rows[i] == rows[1..][i - 1];
          Err(k + 1)
        case Ok(ts) =>
          assert forall i :: 1 <= i < |rows| ==> rows[i] == rows[1..][i - 1];
          Ok([t] + ts)
  }

  /** read_data's loop: one TargetResult per row, appended in table order. */
  method ReadData(rows: seq<StatsRow>, parseFloat: string -> Option<real>) returns (r: Result<seq<TargetResult>, nat>)
    ensures r == ConvertRows(rows, parseFloat)
  {
    var results: seq<TargetResult> := [];
    var i := 0;
    while i < |rows|
      invariant 0 <= i <= |rows| && |results| == i
      invariant forall j :: 0 <= j < i ==> Some(results[j]) == ToTargetResult(rows[j], parseFloat)
    {
      var t := ToTargetResult(rows[i], parseFloat);
      if t.None? {
        var c := ConvertRows(rows, parseFloat);
        assert c.Err?;
        assert c.error == i;
        return Err(i);
      }
      results := results + [t.value];
      i := i + 1;
    }
    var c := ConvertRows(rows, parseFloat);
    assert c.Ok? && |c.value| == |results|;
    assert forall j :: 0 <= j < |results| ==> c.value[j] == results[j];
    assert c.value == results;
    r := Ok(results);
  }

  /** The result of calculate_ranking on the pairwise results and the database's file name. */
  function RankingOf(results: seq<TargetResult>, basename: string, th: Thresholds, policy: MissingPolicy)
    : (r: Result<Ranking, RankingError>)
  {
    if results == [] then Err(NoResults)
    else
      var fuzzers := Dedup(BaseFuzzers(results));
      var targets := Dedup(TargetNames(results));
      match ParseBudgets(basename)
      case None => Err(BadFileName)
      case Some(budgets) =>
        match RankTargets(fuzzers, targets, results[0].seed, results, th, policy, EmptyLists(fuzzers))
        case Err(e) => Err(e)
        case Ok(all) =>
          RankTargetsLengths(fuzzers, targets, results[0].seed, results, th, policy, EmptyLists(fuzzers), 0);
          TargetsNonEmpty(results);
          Ok(Ranking(results[0].seed, budgets.0, |targets|, targets, budgets.1,
                     SortByValue(Averaged(fuzzers, all.mwu)), SortByValue(Averaged(fuzzers, all.fet))))
  }

  /** The body of calculate_ranking's target loop: score every pair, rank both score maps, append the ranks. */
  method RankTarget(fuzzers: seq<string>, pairs: seq<Pair>, target: string, seed: string, results: seq<TargetResult>,
                    th: Thresholds, policy: MissingPolicy, allMwu: map<string, seq<real>>, allFet: map<string, seq<real>>)
    returns (r: Result<RankLists, RankingError>)
    requires NoDup(fuzzers) && pairs == Pairs(fuzzers) && ListsOver(RankLists(allMwu, allFet), fuzzers)
    ensures r == RankStep(fuzzers, target, seed, results, th, policy, RankLists(allMwu, allFet))
  {
    PairsWithin(fuzzers);
    var scores := ScoreTarget(fuzzers, pairs, target, seed, results, th, policy);
    if scores.Err? {
      return Err(MissingPair(target, scores.error.0, scores.error.1));
    }
    var ranksMwu := GetRanking(fuzzers, scores.value.mwu);
    var allMwu' := AppendAll(fuzzers, allMwu, ranksMwu);
    var ranksFet := GetRanking(fuzzers, scores.value.fet);
    var allFet' := AppendAll(fuzzers, allFet, ranksFet);
    r := Ok(RankLists(allMwu', allFet'));
  }

  /** calculate_ranking up to its averaging: empty rank lists, then one pass of the target loop per target. */
  method RankAllTargets(fuzzers: seq<string>, targets: seq<string>, seed: string, results: seq<TargetResult>,
                        th: Thresholds, policy: MissingPolicy)
    returns (r: Result<RankLists, RankingError>)
    requires NoDup(fuzzers)
    ensures r == RankTargets(fuzzers, targets, seed, results, th, policy, EmptyLists(fuzzers))
  {
    var pairs := Pairs(fuzzers);
    var allMwu: map<string, seq<real>> := map f | f in fuzzers :: [];
    var allFet := allMwu;
    for i := 0 to |targets|
      invariant ListsOver(RankLists(allMwu, allFet), fuzzers)
      invariant RankTargets(fuzzers, targets, seed, results, th, policy, EmptyLists(fuzzers))
                == RankTargets(fuzzers, targets[i..], seed, results, th, policy, RankLists(allMwu, allFet))
    {
      var step := RankTarget(fuzzers, pairs, targets[i], seed, results, th, policy, allMwu, allFet);
      if step.Err? {
        return Err(step.error);
      }
      allMwu, allFet := step.value.mwu, step.value.fet;
      assert targets[i..][1..] == targets[i + 1..];
    }
    assert targets[|targets|..] == [];
    r := Ok(RankLists(allMwu, allFet));
  }

  /** calculate_ranking's averaging and `sorted(..., key=value)`, for either statistic. */
  method AverageAndSort(fuzzers: seq<string>, all: map<string, seq<real>>) returns (sorted: seq<Entry>)
    requires forall k :: k in fuzzers ==> k in all && |all[k]| >= 1
    ensures sorted == SortByValue(Averaged(fuzzers, all))
  {
    var avg := Averages(fuzzers, all);
    sorted := SortByValue(avg);
  }

  /**
   * calculate_ranking without the database: discovery, the per-target
   * scoring and ranking loop, averaging and sorting, in the source's order of
   * steps and failures.
   */
  method CalculateRanking(results: seq<TargetResult>, basename: string, th: Thresholds, policy: MissingPolicy)
    returns (r: Result<Ranking, RankingError>)
    ensures r == RankingOf(results, basename, th, policy)
  {
    if |results| == 0 {
      return Err(NoResults);
    }
    var seed := results[0].seed;
    var fuzzers, targets := Discover(results);
    var budgets := ParseBudgets(basename);
    if budgets.None? {
      return Err(BadFileName);
    }
    var maxRuns, maxTime := budgets.value.0, budgets.value.1;
    var all := RankAllTargets(fuzzers, targets, seed, results, th, policy);
    if all.Err? {
      return Err(all.error);
    }
    RankTargetsLengths(fuzzers, targets, seed, results, th, policy, EmptyLists(fuzzers), 0);
    TargetsNonEmpty(results);
    var intervalScaled := AverageAndSort(fuzzers, all.value.mwu);
    var dichotomous := AverageAndSort(fuzzers, all.value.fet);
    r := Ok(Ranking(seed, maxRuns, |targets|, targets, maxTime, intervalScaled, dichotomous));
  }

  // ---------------------------------------------------------------------------
  // What calculate_ranking guarantees
  // ---------------------------------------------------------------------------

  /**
   * The failures of calculate_ranking: no pairwise results at all; a file name
   * without integer fields 3 and 7; and, only under `Abort`, a pair of
   * discovered fuzzers with no pairwise result on a discovered target. Under
   * `Skip` the run succeeds whenever the first two hold.
   */
  lemma RankingOfErrors(results: seq<TargetResult>, basename: string, th: Thresholds, policy: MissingPolicy)
    ensures var r := RankingOf(results, basename, th, policy);
            && (r == Err(NoResults) <==> results == [])
            && (r == Err(BadFileName) <==> results != [] && ParseBudgets(basename).None?)
            && (r.Err? && r.error.MissingPair? ==>
                  && policy == Abort && results != []
                  && r.error.target in Dedup(TargetNames(results))
                  && (r.error.base, r.error.compare) in Pairs(Dedup(BaseFuzzers(results)))
                  && FirstMatch(results, (r.error.base, r.error.compare), r.error.target, results[0].seed).None?)
            && (policy == Skip ==> (r.Ok? <==> results != [] && ParseBudgets(basename).Some?))
            && (r.Err? ==> r.error.NoResults? || r.error.BadFileName? || r.error.MissingPair?)
            && (policy == Abort && results != [] && ParseBudgets(basename).Some?
                && (exists t, p :: t in Dedup(TargetNames(results)) && p in Pairs(Dedup(BaseFuzzers(results)))
                                   && FirstMatch(results, p, t, results[0].seed).None?)
                ==> r.Err? && r.error.MissingPair?)
  {
    if results != [] && ParseBudgets(basename).Some? {
      var fuzzers, targets := Dedup(BaseFuzzers(results)), Dedup(TargetNames(results));
      var acc := EmptyLists(fuzzers);
      if policy == Abort && exists t, p :: t in targets && p in Pairs(fuzzers) && FirstMatch(results, p, t, results[0].seed).None? {
        var t, p :| t in targets && p in Pairs(fuzzers) && FirstMatch(results, p, t, results[0].seed).None?;
        RankTargetsAbortsOnMissing(fuzzers, targets, results[0].seed, results, th, acc, t, p);
      }
      if RankTargets(fuzzers, targets, results[0].seed, results, th, policy, acc).Err? {
        RankTargetsError(fuzzers, targets, results[0].seed, results, th, policy, acc);
      }
      if policy == Skip {
        RankTargetsSkip(fuzzers, targets, results[0].seed, results, th, acc);
      }
    }
  }

  /** calculate_ranking from the rows of the `stats` table: read_data first, then the ranking. */
  function RankingOfRows(rows: seq<StatsRow>, parseFloat: string -> Option<real>, basename: string,
                         th: Thresholds, policy: MissingPolicy): Result<Ranking, RankingError>
  {
    match ConvertRows(rows, parseFloat)
    case Err(k) => Err(BadValue(k))
    case Ok(results) => RankingOf(results, basename, th, policy)
  }

  /** read_data followed by the ranking itself. */
  method CalculateRankingOfRows(rows: seq<StatsRow>, parseFloat: string -> Option<real>, basename: string,
                                th: Thresholds, policy: MissingPolicy)
    returns (r: Result<Ranking, RankingError>)
    ensures r == RankingOfRows(rows, parseFloat, basename, th, policy)
  {
    var results := ReadData(rows, parseFloat);
    if results.Err? {
      return Err(BadValue(results.error));
    }
    r := CalculateRanking(results.value, basename, th, policy);
  }

  /**
   * A row whose statistic is neither "-" nor a number fails the run before
   * anything else is looked at, naming the first such row; otherwise the run
   * is the ranking of the converted rows, which never reports a bad value.
   */
  lemma RankingOfRowsErrors(rows: seq<StatsRow>, parseFloat: string -> Option<real>, basename: string,
                            th: Thresholds, policy: MissingPolicy)
    ensures var r := RankingOfRows(rows, parseFloat, basename, th, policy);
            && (r.Err? && r.error.BadValue? <==> exists i :: 0 <= i < |rows| && ToTargetResult(rows[i], parseFloat).None?)
            && (r.Err? && r.error.BadValue? ==>
                  && r.error.row < |rows| && ToTargetResult(rows[r.error.row], parseFloat).None?
                  && forall i :: 0 <= i < r.error.row ==> ToTargetResult(rows[i], parseFloat).Some?)
            && (r == Err(NoResults) <==> rows == [])
  {
    var c := ConvertRows(rows, parseFloat);
    if c.Ok? {
      RankingOfErrors(c.value, basename, th, policy);
    }
  }

  /**
   * One statistic's ranking over the fuzzers: ascending by average rank,
   * every fuzzer exactly once, every average in [1, n], and the averages
   * adding up to n (n + 1) / 2, as the ranks of a single target do.
   */
  predicate Ranked(out: seq<Entry>, fuzzers: seq<string>)
  {
    && SortedByValue(out)
    && multiset(Names(out)) == multiset(fuzzers)
    && (forall i :: 0 <= i < |out| ==> 1.0 <= out[i].1 <= |fuzzers| as real)
    && SumValues(out) == TargetRankSum(|fuzzers|)
  }

  /** Averaging and sorting well-formed rank lists yields a ranking of the fuzzers. */
  lemma RankedAverages(fuzzers: seq<string>, all: map<string, seq<real>>, len: nat)
    requires len >= 1 && forall k :: k in fuzzers ==> k in all && |all[k]| == len
    requires EntriesBetween(all, 1.0, |fuzzers| as real)
    requires Total(fuzzers, all) == Times(len, TargetRankSum(|fuzzers|))
    ensures Ranked(SortByValue(Averaged(fuzzers, all)), fuzzers)
  {
    AveragedRanking(fuzzers, all);
    AveragedSum(fuzzers, all, len, TargetRankSum(|fuzzers|));
  }

  /** From empty lists, the target loop collects one rank in [1, n] per target, totalling n (n + 1) / 2 per target. */
  lemma RankTargetsFromEmpty(fuzzers: seq<string>, targets: seq<string>, seed: string,
                             results: seq<TargetResult>, th: Thresholds, policy: MissingPolicy)
    requires NoDup(fuzzers)
    requires RankTargets(fuzzers, targets, seed, results, th, policy, EmptyLists(fuzzers)).Ok?
    ensures var all := RankTargets(fuzzers, targets, seed, results, th, policy, EmptyLists(fuzzers)).value;
            && ListsOfLength(all, fuzzers, |targets|)
            && EntriesBetween(all.mwu, 1.0, |fuzzers| as real) && EntriesBetween(all.fet, 1.0, |fuzzers| as real)
            && Total(fuzzers, all.mwu) == Times(|targets|, TargetRankSum(|fuzzers|))
            && Total(fuzzers, all.fet) == Times(|targets|, TargetRankSum(|fuzzers|))
  {
    var acc := EmptyLists(fuzzers);
    EmptyListsFacts(fuzzers, 1.0, |fuzzers| as real);
    RankTargetsLengths(fuzzers, targets, seed, results, th, policy, acc, 0);
    RankTargetsBounds(fuzzers, targets, seed, results, th, policy, acc);
    RankTargetsTotal(fuzzers, targets, seed, results, th, policy, acc);
  }

  /** A successful ranking records its configuration and ranks every discovered fuzzer, per statistic. */
  lemma RankingOfShape(results: seq<TargetResult>, basename: string, th: Thresholds, policy: MissingPolicy)
    requires RankingOf(results, basename, th, policy).Ok?
    ensures var rk := RankingOf(results, basename, th, policy).value;
            var fuzzers := Dedup(BaseFuzzers(results));
            && results != [] && rk.seed == results[0].seed
            && ParseBudgets(basename) == Some((rk.maxRuns, rk.maxTime))
            && rk.targetSet == Dedup(TargetNames(results)) && rk.maxTargets == |rk.targetSet| >= 1
            && Ranked(rk.intervalScaled, fuzzers) && Ranked(rk.dichotomous, fuzzers)
  {
    var fuzzers, targets := Dedup(BaseFuzzers(results)), Dedup(TargetNames(results));
    var seed := results[0].seed;
    var all := RankTargets(fuzzers, targets, seed, results, th, policy, EmptyLists(fuzzers)).value;
    TargetsNonEmpty(results);
    RankTargetsFromEmpty(fuzzers, targets, seed, results, th, policy);
    RankedAverages(fuzzers, all.mwu, |targets|);
    RankedAverages(fuzzers, all.fet, |targets|);
  }

  /**
   * Fuzzers that tie on average rank keep their discovery order: the earlier
   * entry of a tie names a fuzzer that was discovered first.
   */
  lemma RankingTiesInDiscoveryOrder(results: seq<TargetResult>, basename: string, th: Thresholds,
                                    policy: MissingPolicy, dichotomous: bool, i: int, j: int) returns (p: int, q: int)
    requires RankingOf(results, basename, th, policy).Ok?
    requires var rk := RankingOf(results, basename, th, policy).value;
             var out := if dichotomous then rk.dichotomous else rk.intervalScaled;
             0 <= i < j < |out| && out[i].1 == out[j].1
    ensures var rk := RankingOf(results, basename, th, policy).value;
            var out := if dichotomous then rk.dichotomous else rk.intervalScaled;
            var fuzzers := Dedup(BaseFuzzers(results));
            0 <= p < q < |fuzzers| && fuzzers[p] == out[i].0 && fuzzers[q] == out[j].0
  {
    var fuzzers, targets := Dedup(BaseFuzzers(results)), Dedup(TargetNames(results));
    var seed := results[0].seed;
    var all := RankTargets(fuzzers, targets, seed, results, th, policy, EmptyLists(fuzzers)).value;
    TargetsNonEmpty(results);
    RankTargetsLengths(fuzzers, targets, seed, results, th, policy, EmptyLists(fuzzers), 0);
    if dichotomous {
      p, q := AveragedTies(fuzzers, all.fet, i, j);
    } else {
      p, q := AveragedTies(fuzzers, all.mwu, i, j);
    }
  }

  lemma AveragedTies(fuzzers: seq<string>, all: map<string, seq<real>>, i: int, j: int) returns (p: int, q: int)
    requires forall k :: k in fuzzers ==> k in all && |all[k]| >= 1
    requires var out := SortByValue(Averaged(fuzzers, all)); 0 <= i < j < |out| && out[i].1 == out[j].1
    ensures var out := SortByValue(Averaged(fuzzers, all));
            0 <= p < q < |fuzzers| && fuzzers[p] == out[i].0 && fuzzers[q] == out[j].0
  {
    p, q := SortTiesKeepOrder(Averaged(fuzzers, all), i, j);
  }

  /** Averages of constant lists are that constant and already in sorted order. */
  lemma AveragedConstant(fuzzers: seq<string>, all: map<string, seq<real>>, c: real)
    requires forall k :: k in fuzzers ==> k in all && |all[k]| >= 1
    requires EntriesBetween(all, c, c)
    ensures forall i :: 0 <= i < |fuzzers| ==> Averaged(fuzzers, all)[i].1 == c
    ensures SortByValue(Averaged(fuzzers, all)) == Averaged(fuzzers, all)
  {
    var items := Averaged(fuzzers, all);
    AveragedBetween(fuzzers, all, c, c);
    var sorted := SortByValue(items);
    forall i | 0 <= i < |sorted| ensures sorted[i].1 == c {
      assert sorted[i] in multiset(items);
    }
    SortIsStable(items, c);
    WithValueAll(items, c);
    WithValueAll(sorted, c);
  }

  /** Constant rank lists average and sort into the fuzzers in their own order, all at that constant. */
  lemma TiedAverages(fuzzers: seq<string>, all: map<string, seq<real>>, c: real)
    requires forall k :: k in fuzzers ==> k in all && |all[k]| >= 1
    requires EntriesBetween(all, c, c)
    ensures var out := SortByValue(Averaged(fuzzers, all));
            Names(out) == fuzzers && forall i :: 0 <= i < |out| ==> out[i].1 == c
  {
    AveragedConstant(fuzzers, all, c);
    NamesAveraged(fuzzers, all);
  }

  lemma InsignificantFromEmpty(fuzzers: seq<string>, targets: seq<string>, seed: string,
                               results: seq<TargetResult>, th: Thresholds, policy: MissingPolicy)
    requires NoDup(fuzzers) && AllInsignificant(results, th)
    requires RankTargets(fuzzers, targets, seed, results, th, policy, EmptyLists(fuzzers)).Ok?
    ensures var all := RankTargets(fuzzers, targets, seed, results, th, policy, EmptyLists(fuzzers)).value;
            var c := (|fuzzers| + 1) as real / 2.0;
            && ListsOfLength(all, fuzzers, |targets|)
            && EntriesBetween(all.mwu, c, c) && EntriesBetween(all.fet, c, c)
  {
    var c := (|fuzzers| + 1) as real / 2.0;
    var acc := EmptyLists(fuzzers);
    EmptyListsFacts(fuzzers, c, c);
    RankTargetsLengths(fuzzers, targets, seed, results, th, policy, acc, 0);
    RankTargetsInsignificant(fuzzers, targets, seed, results, th, policy, acc);
  }

  /**
   * Without a single significant p-value every fuzzer ties at (n + 1) / 2 in
   * both rankings, which then list the fuzzers in discovery order.
   */
  lemma RankingInsignificant(results: seq<TargetResult>, basename: string, th: Thresholds, policy: MissingPolicy)
    requires AllInsignificant(results, th)
    requires RankingOf(results, basename, th, policy).Ok?
    ensures var rk := RankingOf(results, basename, th, policy).value;
            var fuzzers := Dedup(BaseFuzzers(results));
            var c := (|fuzzers| + 1) as real / 2.0;
            && Names(rk.intervalScaled) == fuzzers && Names(rk.dichotomous) == fuzzers
            && (forall i :: 0 <= i < |fuzzers| ==> rk.intervalScaled[i].1 == c && rk.dichotomous[i].1 == c)
  {
    var fuzzers, targets := Dedup(BaseFuzzers(results)), Dedup(TargetNames(results));
    var seed := results[0].seed;
    var c := (|fuzzers| + 1) as real / 2.0;
    var all := RankTargets(fuzzers, targets, seed, results, th, policy, EmptyLists(fuzzers)).value;
    TargetsNonEmpty(results);
    InsignificantFromEmpty(fuzzers, targets, seed, results, th, policy);
    TiedAverages(fuzzers, all.mwu, c);
    TiedAverages(fuzzers, all.fet, c);
  }

  /** The pairwise results of the example: fuzzer A has no result on target t2. */
  function ExampleResults(): seq<TargetResult>
  {
    [TargetResult("A", "B", "t1", "s", 0.5, 0.5, 1.0, 0.5), TargetResult("B", "C", "t2", "s", 0.5, 0.5, 1.0, 0.5)]
  }

  lemma ExampleFuzzers()
    ensures Dedup(BaseFuzzers(ExampleResults())) == ["A", "B"]
  {
    var xs := BaseFuzzers(ExampleResults());
    assert xs == ["A", "B"];
    assert xs[..1] == ["A"] && xs[..1][..0] == [];
    assert Dedup(xs[..1]) == ["A"];
  }

  lemma ExampleTargetNames()
    ensures Dedup(TargetNames(ExampleResults())) == ["t1", "t2"]
  {
    var xs := TargetNames(ExampleResults());
    assert xs == ["t1", "t2"];
    assert xs[..1] == ["t1"] && xs[..1][..0] == [];
    assert Dedup(xs[..1]) == ["t1"];
  }

  lemma ExamplePairs()
    ensures Pairs(["A", "B"]) == [("A", "B")]
  {
    assert ["A", "B"][1..] == ["B"] && ["B"][1..] == [];
    assert PairsWith("A", ["B"]) == [("A", "B")];
    assert Pairs(["B"]) == [];
  }

  lemma ExampleLookups()
    ensures FirstMatch(ExampleResults(), ("A", "B"), "t1", "s").Some?
    ensures FirstMatch(ExampleResults(), ("A", "B"), "t2", "s").None?
  {
    var results := ExampleResults();
    assert Matches(results[0], ("A", "B"), "t1", "s");
    assert FirstMatch(results[1..], ("A", "B"), "t2", "s").None?;
  }

  /** On the example, (A, B) is scored on t1 and missing on t2. */
  lemma ExampleTargets(th: Thresholds, policy: MissingPolicy)
    ensures TargetScoresOf(["A", "B"], "t1", "s", ExampleResults(), th, policy).Ok?
    ensures policy == Abort ==> TargetScoresOf(["A", "B"], "t2", "s", ExampleResults(), th, policy) == Err(("A", "B"))
  {
    var fuzzers := ["A", "B"];
    ExamplePairs();
    ExampleLookups();
    PairsWithin(fuzzers);
    ScorePairsOutcome(Pairs(fuzzers), "t1", "s", ExampleResults(), th, policy, ZeroScores(fuzzers));
    ScorePairsOutcome(Pairs(fuzzers), "t2", "s", ExampleResults(), th, policy, ZeroScores(fuzzers));
  }

  /**
   * A run in which fuzzer A has no result on target t2: as written the whole
   * ranking aborts on the pair (A, B) there; skipping the pair ranks it.
   */
  lemma MissingPairAborts(th: Thresholds)
    ensures var name := SC.StatsDbName(10, 2, 3600, "s");
            && RankingOf(ExampleResults(), name, th, Abort) == Err(MissingPair("t2", "A", "B"))
            && RankingOf(ExampleResults(), name, th, Skip).Ok?
  {
    var results := ExampleResults();
    var name := SC.StatsDbName(10, 2, 3600, "s");
    var fuzzers := ["A", "B"];
    BudgetsRoundTrip(10, 2, 3600, "s");
    ExampleFuzzers();
    ExampleTargetNames();
    ExampleTargets(th, Abort);
    var acc := EmptyLists(fuzzers);
    var next := RankStep(fuzzers, "t1", "s", results, th, Abort, acc);
    assert next.Ok?;
    assert RankTargets(fuzzers, ["t2"], "s", results, th, Abort, next.value) == Err(MissingPair("t2", "A", "B"));
    assert ["t1", "t2"][1..] == ["t2"];
    assert RankTargets(fuzzers, ["t1", "t2"], "s", results, th, Abort, acc) == Err(MissingPair("t2", "A", "B"));
    RankingOfErrors(results, name, th, Skip);
  }

  // ---------------------------------------------------------------------------
  // Storing a ranking only once per configuration (the SELECT-then-INSERT of calculate_ranking)
  // ---------------------------------------------------------------------------

  /** What get_rank_id looks a ranking row up by. */
  datatype RankKey = RankKey(seed: string, stat: string, maxRuns: int, maxTargets: nat, maxTime: int, th: Thresholds)

  /** The stored part of a ranking row: the target set and the fuzzers with their average ranks. */
  datatype StoredRanking = StoredRanking(targetSet: seq<string>, ranking: seq<Entry>)

  function KeyOf(rk: Ranking, stat: string, th: Thresholds): RankKey
  {
    RankKey(rk.seed, stat, rk.maxRuns, rk.maxTargets, rk.maxTime, th)
  }

  /** Inserts a row for `key` unless one exists already. */
  function InsertIfAbsent(db: map<RankKey, StoredRanking>, key: RankKey, row: StoredRanking)
    : (db': map<RankKey, StoredRanking>)
    ensures db'.Keys == db.Keys + {key}
    ensures forall k :: k in db ==> db'[k] == db[k]
    ensures key !in db ==> db'[key] == row
  {
    if key in db then db else db[key := row]
  }

  /** Both rows of a ranking, "interval scaled" first, then "dichotomous". */
  function StoreRanking(db: map<RankKey, StoredRanking>, rk: Ranking, th: Thresholds)
    : (db': map<RankKey, StoredRanking>)
  {
    var db1 := InsertIfAbsent(db, KeyOf(rk, "interval scaled", th), StoredRanking(rk.targetSet, rk.intervalScaled));
    InsertIfAbsent(db1, KeyOf(rk, "dichotomous", th), StoredRanking(rk.targetSet, rk.dichotomous))
  }

  /**
   * The first ranking stored for a configuration stays: storing any ranking
   * of the same configuration again changes nothing, and nothing stored
   * before is overwritten.
   */
  lemma StoreRankingFirstWins(db: map<RankKey, StoredRanking>, rk: Ranking, rk': Ranking, th: Thresholds)
    requires rk'.seed == rk.seed && rk'.maxRuns == rk.maxRuns && rk'.maxTargets == rk.maxTargets
    requires rk'.maxTime == rk.maxTime
    ensures StoreRanking(StoreRanking(db, rk, th), rk', th) == StoreRanking(db, rk, th)
    ensures forall k :: k in db ==> StoreRanking(db, rk, th)[k] == db[k]
    ensures KeyOf(rk, "interval scaled", th) !in db ==>
              StoreRanking(db, rk, th)[KeyOf(rk, "interval scaled", th)] == StoredRanking(rk.targetSet, rk.intervalScaled)
    ensures KeyOf(rk, "dichotomous", th) !in db ==>
              StoreRanking(db, rk, th)[KeyOf(rk, "dichotomous", th)] == StoredRanking(rk.targetSet, rk.dichotomous)
  {
  }
}
