# SENF ranking engine in Dafny

SENF ranks fuzzers from repeated fuzzing campaigns.

- A statistics stage (`statistical_comparison.py`) compares every fuzzer with every other fuzzer on every target. It writes one row per ordered pair to a per-configuration statistics database. Each row holds:
  - a Mann-Whitney p-value;
  - a Fisher exact-test p-value;
  - an odds ratio;
  - the Vargha-Delaney A12 effect size.
- The ranking stage (`calculate_ranking` in `calc_scores.py`) reads those rows and works through them in order:
  1. It discovers the fuzzers and targets in first-appearance order.
  2. It enumerates every unordered fuzzer pair.
  3. For each target, it scores every pair under two zero-sum rules: "interval scaled" (Mann-Whitney and A12) and "dichotomous" (Fisher and odds ratio).
  4. It ranks the fuzzers per target by descending score, with average ranks for ties.
  5. It averages each fuzzer's ranks over the targets.
  6. It sorts the fuzzers ascending by average rank and stores one ranking per statistic.

This project models that engine and proves what it guarantees. Modules:

- `Ranker` (`ranker.dfy`): `get_ranking`, and scipy's "average" rank semantics stated by counting.
- `Scorer` (`scorer.dfy`): pairwise results, `float_conversion`, `get_stats`, discovery, pair enumeration, and the two scoring rules over one target.
- `CalcScores` (`calc_scores.dfy`):
  - reading the run and time budgets back out of the statistics database's file name;
  - the stable sort by value;
  - rank aggregation and averaging;
  - `calculate_ranking` as a whole;
  - storing a ranking only once per configuration.
- `StatisticalComparison` (`statistical_comparison.dfy`):
  - `parse_values`;
  - the `None` filter of result rows;
  - the `Result` class (here `RunResult`) with its censoring loop;
  - the statistics database's file name.
- `Wrappers` (`wrappers.dfy`): `Option` and `Result`.

Imperative code is modelled as methods with loops. Each such method is proved equal to a specification function, and the properties are proved about those functions:

- `GetRanking` (the copy-and-fill loop);
- `GetStats` (the linear search);
- `Discover` (append-if-absent);
- `AdjustScores` and `ScoreTarget` (in-place `+= 1` / `-= 1` on the score maps);
- `AppendAll` and `Averages` (the rank lists and their means);
- `RankTarget`, `RankAllTargets` and `CalculateRanking`.

`AverageAndSort` has no loop of its own: it composes `Averages` with the sort.

`RunResult`, the source's class `Result`, is a class whose `Censor` method rewrites `runs` and `crashesFound` in place.

Behaviours kept exactly as the code has them:

- **Missing pair.** A pair with no pairwise result makes `get_stats` raise `LookupError` (`calc_scores.py:57`). The handler at `calc_scores.py:171` catches only `TypeError` and `AttributeError`, so the whole ranking run ends there. The handler's message, "Could not find statistical results for: ..." (`calc_scores.py:172`), reads as if the pair were meant to be skipped and the run to continue. The model follows the code (`MissingPolicy.Abort`). It also defines the skipping behaviour the handler's message points to (`MissingPolicy.Skip`); see Findings.
- **Fisher rule, second branch.** It compares `a12`, not the odds ratio, with `threshold_odds_ratio_2` (`calc_scores.py:167`). `FetVerdict` keeps that.
- **A12 thresholds.** `--threshold_a1` and `--threshold_a2` are set independently. With a1 <= a2, an A12 from a1 to a2, both included, is a draw (`A12AtThresholdNoChange`). With a1 > a2 and a significant p-value there is no draw: the first branch wins below a1, and the second branch wins from a1 on (`A12CrossedThresholds`).
- **Sentinel p-values.** `"-"` converts to -1 (`calc_scores.py:10-11`). A p-value that could not be computed therefore passes the significance test `p < threshold_p` for every threshold_p above -1 (`UnavailablePValueIsSignificant`).
- **Order of failures.** `calculate_ranking` fails in this order:
  0. a statistic that is neither `"-"` nor a number, in `read_data`'s conversion of the rows: `BadValue(row)`, naming the first such row;
  1. no pairwise results at all (`all_target_results[0]`): `NoResults`;
  2. a file name whose fields 3 and 7 are not integers: `BadFileName`;
  3. a missing pair on some target: `MissingPair(target, base, compare)`.

Values:

- Scores are `int`. Ranks, averages, p-values, odds ratios, A12 and thresholds are `real`, exactly.
- Python's `float()` is the abstract partial function `parseFloat: string -> Option<real>`.
- `int()` is an optional sign followed by ASCII digits.

## Model

| member | source | states |
|---|---|---|
| StatisticalComparison.ParseValues | statistical_comparison.py:25-43 | Fails unless the line holds "= " or "< ". For kind "p", a line containing "NA" reads as 1.0. Otherwise the value is `float` of the text from index 2, and a "p" or "p_f" value above 1.0 fails, so every returned p-value is at most 1. |
| StatisticalComparison.PresentRuns | statistical_comparison.py:105 | The run cells that hold a value: a value is kept iff its cell is present, and the length is the number of cells minus the number of missing (None) cells. |
| StatisticalComparison.PresentRunsAppend | statistical_comparison.py:105 | The None filter distributes over concatenating rows of cells, so it keeps column order. |
| StatisticalComparison.PresentRunsSingle | statistical_comparison.py:105 | A present cell contributes its value and a missing cell contributes nothing. |
| StatisticalComparison.RunResult.FromRow | statistical_comparison.py:143 | A `Result` built from a results row has the row's id, fuzzer, target and seed, no crashes yet, and the row's present runs. |
| StatisticalComparison.Censored | statistical_comparison.py:133-139 | Censoring keeps the length and order. A run below `max_time` is kept and any other run becomes `max_time`, so every element is at most `max_time`. |
| StatisticalComparison.CrashCount | statistical_comparison.py:132-135 | The crash count is at most the number of runs. It equals that number iff every run is below `max_time`, and it is 0 iff none is. |
| StatisticalComparison.CensorIdempotent | statistical_comparison.py:133-139 | Censoring censored runs changes nothing and counts the same crashes. |
| StatisticalComparison.RunResult.Censor | statistical_comparison.py:130-139 | The loop leaves `runs` censored and `crashes_found` equal to the crash count of the old runs. Id, fuzzer, target and seed are untouched. |
| StatisticalComparison.NatToString | statistical_comparison.py:115 | `str(n)` of a count is a non-empty string of decimal digits. |
| Ranker.RankDataOfNegated | calc_scores.py:61 | Ranking the negated scores ascending ("average" ties) gives each score #{higher scores} + (#{equal scores} + 1)/2. |
| Ranker.GetRanking | calc_scores.py:59-67 | The result has exactly the keys of the score map. The key at iteration position i gets the i-th rank of the negated values, and the whole result equals `RankMap`. |
| Ranker.RankMapByPosition | calc_scores.py:63-65 | Filling the ranks position by position in key order yields the counting definition of the ranks. |
| Ranker.RankMapOrder | calc_scores.py:59-67 | Equal scores get equal ranks, a higher score gets a strictly smaller rank, and every rank lies in [1, n]. |
| Ranker.RankMapAllZero | calc_scores.py:59-67 | If every score is 0, every rank is (n + 1)/2. |
| Ranker.RankMapSum | calc_scores.py:59-67 | The ranks of one score map add up to n (n + 1)/2, with ties or without. |
| Ranker.RankSum | calc_scores.py:61 | The average ranks of any n integers add up to n (n + 1)/2. |
| Ranker.DescRankBounds | calc_scores.py:61 | The rank of a present score lies in [1, n]. |
| Ranker.DescRankStrict | calc_scores.py:61 | A strictly higher score has a strictly smaller rank. |
| Ranker.DescRankAllEqual | calc_scores.py:61 | When all n scores are equal, each has rank (n + 1)/2. |
| Ranker.RankMapOrderIndependent | calc_scores.py:63-65 | The rank of every key does not depend on the order in which the dictionary is iterated. |
| Scorer.FloatConversion | calc_scores.py:9-13 | "-" converts to -1. Any other string converts as `float()` does, failing where it fails. |
| Scorer.ToTargetResult | calc_scores.py:15-24 | A stats row converts iff all four statistics convert. The names are kept, and each statistic is the `float_conversion` of its own column (p_fet and p_mwu are not swapped). |
| Scorer.UnavailablePValueIsSignificant | calc_scores.py:154-163 | A "-" p-value (-1) passes the test `p < threshold_p` of both rules for every threshold above -1. |
| Scorer.FirstMatch | calc_scores.py:51-57 | Finds nothing iff no entry has base = pair[0], compare = pair[1] and the same target and seed. Otherwise the result is such an entry of the list. The lookup is oriented: an entry stored for (B, A) does not answer (A, B). |
| Scorer.GetStats | calc_scores.py:51-57 | The linear search returns exactly `FirstMatch`: the first matching entry, or None where the source raises `LookupError`. |
| Scorer.FirstMatchAt | calc_scores.py:53-55 | The entry at the first matching index is the one returned. |
| Scorer.Dedup | calc_scores.py:88-92 | Append-if-absent yields a list without duplicates that holds exactly the names seen. |
| Scorer.DedupFirstAppearanceOrder | calc_scores.py:88-92 | Earlier in the discovered list means first seen earlier in the results. |
| Scorer.Discover | calc_scores.py:88-92 | The discovery loop builds exactly the deduplicated base fuzzers and targets. |
| Scorer.PairsCount | calc_scores.py:99 | n fuzzers make n (n - 1)/2 pairs. |
| Scorer.PairsSound | calc_scores.py:99 | Every enumerated pair is (fs[i], fs[j]) for some i < j. |
| Scorer.PairsComplete | calc_scores.py:99 | Every (fs[i], fs[j]) with i < j is enumerated. |
| Scorer.PairsMembership | calc_scores.py:99 | A pair is enumerated iff its members stand at positions i < j. |
| Scorer.PairsWithin | calc_scores.py:99 | Both members of every pair are discovered fuzzers. |
| Scorer.PairsDistinct | calc_scores.py:99 | For distinct fuzzers, no pair repeats, no fuzzer is paired with itself, and no pair appears in both orders. |
| Scorer.MwuVerdict | calc_scores.py:154-161 | No change unless p_mwu < threshold_p. Otherwise pair[0] wins iff a12 < threshold_a12_1, and pair[1] wins iff a12 >= threshold_a12_1 and a12 > threshold_a12_2. |
| Scorer.FetVerdict | calc_scores.py:163-169 | No change unless p_fet < threshold_p. Otherwise pair[0] wins iff odds_ratio > threshold_or_1, and pair[1] wins iff it is not and a12 < threshold_or_2. |
| Scorer.A12AtThresholdNoChange | calc_scores.py:156-161 | Given threshold_a12_1 <= threshold_a12_2, an A12 anywhere from threshold_a12_1 to threshold_a12_2, both included, changes nothing. |
| Scorer.A12CrossedThresholds | calc_scores.py:156-161 | The two A12 thresholds are set independently (calc_scores.py:249-250). With threshold_a12_1 > threshold_a12_2 and a significant p-value there is no draw: pair[0] wins iff A12 < threshold_a12_1, and pair[1] wins from threshold_a12_1 on. |
| Scorer.ApplyEffect | calc_scores.py:156-169 | The two in-place updates of one pair move only its two fuzzers: pair[0] by +1 and pair[1] by -1 when pair[0] wins, the reverse when pair[1] wins. No verdict, or a self-pair, changes nothing. |
| Scorer.ZeroScores | calc_scores.py:145-149 | Both score maps start with exactly the fuzzers as keys, all at 0. |
| Scorer.AdjustScores | calc_scores.py:153-169 | The nested in-place updates equal applying both rules' verdicts to both maps. |
| Scorer.ScoreTarget | calc_scores.py:145-173 | The pair loop of one target equals `ScorePairs` from zero scores, including its abort on a missing pair. |
| Scorer.ScorePairsOutcome | calc_scores.py:151-173 | The pair loop succeeds iff the policy is Skip or every pair has a result. A failure happens only under Abort, and it names an enumerated pair that has no result. |
| Scorer.TargetScoresOf | calc_scores.py:144-173 | On success, both score maps of a target have exactly the discovered fuzzers as keys. |
| Scorer.ApplyKeepsSum | calc_scores.py:156-169 | Every pair's adjustment keeps the sum of a score map. |
| Scorer.ScorePairsKeepsSums | calc_scores.py:151-173 | The pair loop keeps the sum of both score maps. |
| Scorer.ScorePairsDrift | calc_scores.py:151-173 | A fuzzer's score moves by at most the number of pairs it takes part in. |
| Scorer.InvolvingPairs | calc_scores.py:99 | Among distinct fuzzers, each takes part in exactly n - 1 pairs. |
| Scorer.TargetScoresBounds | calc_scores.py:144-173 | Per target, both score maps sum to 0, and every score lies in [-(n - 1), n - 1]. |
| Scorer.InsignificantKeepsScores | calc_scores.py:154-169 | With no p-value below threshold_p, no pair changes either score. |
| Scorer.Resolvable | calc_scores.py:151-153 | The pairs kept are exactly the enumerated pairs that have a pairwise result. |
| Scorer.SkipIgnoresMissing | calc_scores.py:171-173 | Skipping missing pairs equals scoring only the pairs that have results, and each of those contributes exactly what it would anyway. |
| CalcScores.Split | calc_scores.py:95 | `str.split('_')` yields at least one part, and no part contains '_'. |
| CalcScores.SplitJoin | calc_scores.py:95 | Joining the parts with '_' gives back the string. |
| CalcScores.SplitAround | calc_scores.py:95 | Splitting a + "_" + b gives the parts of a followed by the parts of b. |
| CalcScores.ParseInt | calc_scores.py:96-97 | Plain digits parse to a non-negative number. Anything that parses is digits, optionally after '-' or '+', and after '-' the value is at most 0. |
| CalcScores.ParseIntOfString | calc_scores.py:96-97 | `int(str(n)) == n` for every integer n. |
| CalcScores.ParseBudgets | calc_scores.py:95-97 | Succeeds iff the name has at least 8 '_'-separated fields and fields 3 and 7 are integers; those two fields are the run and time budgets. |
| CalcScores.BudgetsRoundTrip | calc_scores.py:95-97 | Reading fields 3 and 7 of a name written as at statistical_comparison.py:115 gives back max_runs and max_time, for any seed text. |
| CalcScores.SortByValue | calc_scores.py:187 | The sort result is ascending by value and a permutation of its input. |
| CalcScores.SortIsStable | calc_scores.py:187 | For every value, the items with that value keep their relative order. |
| CalcScores.SortTiesKeepOrder | calc_scores.py:187 | Two items that tie after sorting stood in the same order before sorting. |
| CalcScores.SortKeepsNames | calc_scores.py:187 | Sorting keeps every fuzzer name exactly as often as before. |
| CalcScores.SortKeepsSum | calc_scores.py:187 | Sorting keeps the sum of the values. |
| CalcScores.MeanBounds | calc_scores.py:185 | The mean of values in [lo, hi] lies in [lo, hi]. |
| CalcScores.MeanOfConstant | calc_scores.py:185 | The mean of a constant list is that constant. |
| CalcScores.AppendRanksEffect | calc_scores.py:176-177 | Every fuzzer's list gains exactly one entry, its rank for this target, at the end. |
| CalcScores.AppendAll | calc_scores.py:176-177 | The append loop over the rank map's keys equals `AppendRanks`. |
| CalcScores.RankStep | calc_scores.py:145-181 | One pass of the target loop, which appends a rank for this target to every fuzzer's two lists, keeps exactly the fuzzers as keys of both. |
| CalcScores.RankTarget | calc_scores.py:145-181 | Scoring, ranking and appending for one target equals `RankStep`. |
| CalcScores.RankAllTargets | calc_scores.py:136-181 | Empty lists followed by the target loop equal `RankTargets`, and the loop stops at the first missing pair. |
| CalcScores.RankTargets | calc_scores.py:144-181 | On success, the rank lists have exactly the fuzzers as keys. |
| CalcScores.RankTargetsLengths | calc_scores.py:175-181 | Each fuzzer's two lists gain exactly one entry per target. |
| CalcScores.RankTargetsBounds | calc_scores.py:175-181 | Every collected rank lies in [1, n]. |
| CalcScores.RankTargetsTotal | calc_scores.py:175-181 | Each target adds n (n + 1)/2 to the total of each statistic's collected ranks. |
| CalcScores.RankTargetsInsignificant | calc_scores.py:154-181 | With no significant p-value, every collected rank is (n + 1)/2. |
| CalcScores.RankTargetsSkip | calc_scores.py:171-173 | When missing pairs are skipped, the target loop never fails. |
| CalcScores.RankTargetsError | calc_scores.py:51-57 | A failed target loop names a discovered target and an enumerated pair with no result there, and it fails only under Abort. |
| CalcScores.RankTargetsAbortsOnMissing | calc_scores.py:51-57 | Conversely, under Abort, an enumerated pair with no result on any one of the targets makes the target loop fail (the LookupError is not caught at calc_scores.py:171). |
| CalcScores.Averages | calc_scores.py:183-185 | The averaging loop yields (fuzzer, mean of its ranks) in key order. |
| CalcScores.AveragedBetween | calc_scores.py:183-185 | Averages of ranks in [lo, hi] lie in [lo, hi]. |
| CalcScores.SumValuesAveraged | calc_scores.py:183-185 | When all lists have length L, the averages add up to the total of all ranks divided by L. |
| CalcScores.AveragedRanking | calc_scores.py:183-187 | Averaging and sorting gives an ascending list that names every fuzzer exactly once, with every average in [1, n]. |
| CalcScores.AveragedSum | calc_scores.py:183-187 | Averaged and sorted, the averages of L targets whose ranks total L·s add up to s. |
| CalcScores.AverageAndSort | calc_scores.py:183-187 | The averaging loop followed by `sorted(..., key=value)` equals sorting the averaged items. |
| CalcScores.EmptyLists | calc_scores.py:136-142 | Every fuzzer starts with an empty rank list, per statistic. |
| CalcScores.ConvertRows | calc_scores.py:36-49 | The rows convert iff every row's statistics convert; then there is one result per row, in table order, each the conversion of its row. Otherwise the error names the first row that fails. |
| CalcScores.ReadData | calc_scores.py:43-45 | The conversion loop equals `ConvertRows`, stopping at the first row that raises ValueError. |
| CalcScores.CalculateRankingOfRows | calc_scores.py:80-209 | Reading the rows and then ranking equals `RankingOfRows`: conversion first, then the ranking of the converted rows. |
| CalcScores.RankingOfRowsErrors | calc_scores.py:21-24 | The run fails with BadValue iff some row does not convert, and then it names the first such row. NoResults happens iff the table is empty. |
| CalcScores.CalculateRanking | calc_scores.py:80-209 | The whole computation equals `RankingOf`: discovery, budgets from the name, the target loop, then averages sorted ascending, with the source's failures in the source's order. |
| CalcScores.RankingOfErrors | calc_scores.py:86-173 | The result is NoResults iff there are no results. It is BadFileName iff results exist and fields 3 and 7 do not parse. A MissingPair names a discovered target and an enumerated pair with no result there, and happens only under Abort. Under Skip, the first two conditions are the only failures. No other failure occurs once the rows are converted. Under Abort, once the results exist and the name parses, any enumerated pair without a result on a discovered target makes the run fail with MissingPair. |
| CalcScores.RankingOfShape | calc_scores.py:86-209 | A ranking records the first result's seed, the budgets read from the file name, and the discovered targets with their count. Each statistic's list is ascending, names every discovered fuzzer exactly once, has every average in [1, n], and adds up to n (n + 1)/2. |
| CalcScores.RankingTiesInDiscoveryOrder | calc_scores.py:187 | In either stored ranking, fuzzers that tie on average rank appear in discovery order. |
| CalcScores.RankingInsignificant | calc_scores.py:154-209 | With no significant p-value at all, both rankings list the fuzzers in discovery order, each at (n + 1)/2. |
| CalcScores.MissingPairAborts | calc_scores.py:171-173 | On results where fuzzer A has none on target t2, the code as written aborts with MissingPair(t2, A, B). Skipping the pair ranks the run. |
| CalcScores.InsertIfAbsent | calc_scores.py:192-193 | A row is inserted only under a key not yet present, and existing rows are never changed. |
| CalcScores.StoreRankingFirstWins | calc_scores.py:189-226 | Storing a ranking of an already stored configuration changes nothing. Earlier rows are never overwritten, and a new configuration's interval-scaled and dichotomous rows hold the two sorted rankings. |

## Left out

- Databases. The model leaves out the SQLite connection and the `SELECT` of `read_data`, `get_rank_id`, and the `CREATE TABLE` / `INSERT` / `UPDATE` statements in both files. The fetched `stats` rows are a parameter of `RankingOfRows`; `read_data`'s conversion of them is modelled (`ConvertRows`, `ReadData`). The stores are modelled as a map with an insert-if-absent test.
- The pairwise `stats` table is not modelled: its creation (statistical_comparison.py:119-127) and the insert of a pairwise row only when no row for the same fuzzers, target and seed exists (158-162). Both are database I/O. The same first-write-wins rule is modelled for stored rankings (`CalcScores.InsertIfAbsent`).
- The R subprocess of `get_R_stats`: the template file, `Rscript` with its timeout, and the regular expressions over its output. It is an external process; only `parse_values` is kept.
- `scipy.stats.rankdata` is not modelled as a library. Its "average" semantics are stated by counting instead.
- Python's `float()` text syntax is abstracted as `parseFloat`. Its results are exact reals, so the non-finite floats `inf` and `nan` are not represented. For example, R can report an infinite Fisher odds ratio as "Inf", and `float("Inf")` then passes the source's `odds_ratio > threshold` test.
- ParseInt: does not accept the surrounding whitespace, underscores or non-ASCII digits that Python's `int()` accepts, because the names it reads are written by `str(int)`.
- Floating-point rounding of ranks and means. They are exact reals here.
- The 9-slot output schema. With more than 9 fuzzers, the `UPDATE` of `fuzzer10` fails in the database. Stored rankings are unbounded lists.
- The `argparse` `main` functions, including their `args.x if args.x else default` treatment of a threshold of 0.0.
- `os.listdir`, path joining, the `evaldata` module, and the `print_result` / `print` diagnostics.
- The target filter of `calculate_statistics` (statistical_comparison.py:107-109): a Python loop over the fetched rows that keeps the results whose target is among the compared targets. The model's result rows stand for the rows it kept.
- Run times are `int` in `ResultRow` and `RunResult`. The source reads them untyped from the results database and only compares them with the integer `max_time` and copies them, so censoring loses no behaviour.
- CalcScores.BudgetsRoundTrip: holds for any seed text of the name itself. The source writes the name with `os.path.join` and reads it back through `os.listdir` and `os.path.basename`; a seed containing '/' would put the file in another directory, and paths are not modelled.
- StatisticalComparison.StatsDbName: states no contract of its own. Its property is the round trip `CalcScores.BudgetsRoundTrip`.

## Findings

| source | as written | input that shows it | evidently intended | confidence | as-written member | corrected member |
|---|---|---|---|---|---|---|
| calc_scores.py:171 | `get_stats` raises `LookupError` for a missing pair, but `except (TypeError, AttributeError)` does not catch it, so one missing pair aborts the whole ranking | pairwise results (A, B, t1) and (B, C, t2): pair (A, B) has no result on t2 | the handler's "Could not find statistical results for" message: skip the pair and continue | not executed | CalcScores.MissingPairAborts | Scorer.SkipIgnoresMissing |
