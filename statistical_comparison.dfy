/**
 * Pre-processing helpers of the statistics stage (statistical_comparison.py):
 * reading a number out of a line of the statistics report, dropping missing
 * cells of a result row, censoring run times at the time budget while counting
 * crashes, and the name of the per-configuration statistics database.
 */
module StatisticalComparison {
  import opened Wrappers

  // ---------------------------------------------------------------------------
  // Substrings and report values (parse_values)
  // ---------------------------------------------------------------------------

  /** `sub` occurs in `s` starting at index `i`. */
  predicate OccursAt(s: string, sub: string, i: int)
  {
    0 <= i <= |s| - |sub| && s[i..i + |sub|] == sub
  }

  /** Python's `sub in s` on strings. */
  function Contains(s: string, sub: string): (found: bool)
    ensures found <==> exists i :: OccursAt(s, sub, i)
    decreases |s|
  {
    if |sub| > |s| then false
    else if s[..|sub|] == sub then assert OccursAt(s, sub, 0); true
    else
      var found' := Contains(s[1..], sub);
      assert found' ==> exists i :: OccursAt(s, sub, i) by {
        if found' {
          var j :| OccursAt(s[1..], sub, j);
          assert s[j + 1..j + 1 + |sub|] == s[1..][j..j + |sub|];
          assert OccursAt(s, sub, j + 1);
        }
      }
      assert (exists i :: OccursAt(s, sub, i)) ==> found' by {
        if i :| OccursAt(s, sub, i) {
          assert i != 0;
          assert s[1..][i - 1..i - 1 + |sub|] == s[i..i + |sub|];
          assert OccursAt(s[1..], sub, i - 1);
        }
      }
      found'
  }

  /** Python's slice `s[2:]`, which is empty when `s` is shorter than two characters. */
  function DropTwo(s: string): (t: string)
    ensures |s| >= 2 ==> t == s[2..]
    ensures |s| < 2 ==> t == []
  {
    if |s| >= 2 then s[2..] else []
  }

  /** The report line holds a value after a relation sign: "= " or "< ". */
  predicate HasRelation(s: string)
  {
    Contains(s, "= ") || Contains(s, "< ")
  }

  /** Value kinds that are probabilities and therefore range-checked. */
  predicate IsProbabilityKind(kind: string)
  {
    kind == "p" || kind == "p_f"
  }

  /**
   * parse_values: the number after the relation sign of a report line, for the
   * value kind `kind` ("p", "p_f", "a12" or "or_ab"). Python's `float()` is the
   * partial function `parseFloat`; None stands for the ValueError the source raises.
   */
  function ParseValues(s: string, kind: string, parseFloat: string -> Option<real>): (r: Option<real>)
    // no relation sign: ValueError
    ensures !HasRelation(s) ==> r == None
    // a rank-sum p-value reported as "NA" reads as 1
    ensures HasRelation(s) && kind == "p" && Contains(s, "NA") ==> r == Some(1.0)
    // otherwise the number is the text from index 2 on, wherever the sign stood
    ensures HasRelation(s) && !(kind == "p" && Contains(s, "NA")) ==>
              (r.Some? <==> parseFloat(s[2..]).Some? && !(IsProbabilityKind(kind) && parseFloat(s[2..]).value > 1.0))
    ensures r.Some? && !(kind == "p" && Contains(s, "NA")) ==> |s| >= 2 && r == parseFloat(s[2..])
    // a returned p-value is at most 1
    ensures r.Some? && IsProbabilityKind(kind) ==> r.value <= 1.0
  {
    if !HasRelation(s) then None
    else
      var v := if kind == "p" && Contains(s, "NA") then Some(1.0) else parseFloat(DropTwo(s));
      match v
      case None => None
      case Some(x) => if IsProbabilityKind(kind) && x > 1.0 then None else Some(x)
  }

  // ---------------------------------------------------------------------------
  // Result rows (the comprehension `[x for x in entry[4:] if x is not None]`)
  // ---------------------------------------------------------------------------

  /** One row of the raw results table: id, fuzzer, target, seed, then one cell per run. */
  datatype ResultRow = ResultRow(eId: int, fuzzer: string, target: string, seed: string, cells: seq<Option<int>>)

  /** The number of missing (None) cells. */
  function MissingCells(cells: seq<Option<int>>): nat
  {
    if cells == [] then 0 else (if cells[0].None? then 1 else 0) + MissingCells(cells[1..])
  }

  /** The run cells that hold a value, in column order. */
  function PresentRuns(cells: seq<Option<int>>): (runs: seq<int>)
    ensures |runs| == |cells| - MissingCells(cells)
    ensures |runs| <= |cells|
    ensures |runs| == |cells| <==> None !in cells
    ensures forall x :: x in runs <==> Some(x) in cells
  {
    if cells == [] then []
    else
      var rest := PresentRuns(cells[1..]);
      assert cells == [cells[0]] + cells[1..];
      match cells[0]
      case None => rest
      case Some(x) => [x] + rest
  }

  lemma {:induction false} PresentRunsAppend(a: seq<Option<int>>, b: seq<Option<int>>)
    ensures PresentRuns(a + b) == PresentRuns(a) + PresentRuns(b)
  {
    if a != [] {
      var ab := a + b;
      assert ab[0] == a[0] && ab[1..] == a[1..] + b;
      PresentRunsAppend(a[1..], b);
      assert PresentRuns(ab) == (if a[0].Some? then [a[0].value] else []) + PresentRuns(ab[1..]);
      assert PresentRuns(a) == (if a[0].Some? then [a[0].value] else []) + PresentRuns(a[1..]);
    } else {
      assert a + b == b;
    }
  }

  /** A present cell contributes its value, a missing one nothing: with PresentRunsAppend this fixes PresentRuns. */
  lemma PresentRunsSingle(c: Option<int>)
    ensures PresentRuns([c]) == if c.Some? then [c.value] else []
  {
    assert [c][1..] == [];
  }

  // ---------------------------------------------------------------------------
  // Censoring at the time budget
  // ---------------------------------------------------------------------------

  /** The runs with every time at or above `maxTime` replaced by `maxTime`. */
  function Censored(runs: seq<int>, maxTime: int): (out: seq<int>)
    ensures |out| == |runs|
    ensures forall i :: 0 <= i < |runs| ==> out[i] <= maxTime
    ensures forall i :: 0 <= i < |runs| && runs[i] < maxTime ==> out[i] == runs[i]
    ensures forall i :: 0 <= i < |runs| && runs[i] >= maxTime ==> out[i] == maxTime
  {
    if runs == [] then []
    else
      var last := runs[|runs| - 1];
      Censored(runs[..|runs| - 1], maxTime) + [if last < maxTime then last else maxTime]
  }

  /** The number of runs that found a crash before the time budget ran out. */
  function CrashCount(runs: seq<int>, maxTime: int): (n: nat)
    ensures n <= |runs|
    ensures n == |runs| <==> forall i :: 0 <= i < |runs| ==> runs[i] < maxTime
    ensures n == 0 <==> forall i :: 0 <= i < |runs| ==> runs[i] >= maxTime
  {
    if runs == [] then 0
    else
      var prefix := runs[..|runs| - 1];
      assert forall i :: 0 <= i < |prefix| ==> prefix[i] == runs[i];
      CrashCount(prefix, maxTime) + if runs[|runs| - 1] < maxTime then 1 else 0
  }

  /** Censoring its own output changes nothing, and counts the same crashes. */
  lemma {:induction false} CensorIdempotent(runs: seq<int>, maxTime: int)
    ensures Censored(Censored(runs, maxTime), maxTime) == Censored(runs, maxTime)
    ensures CrashCount(Censored(runs, maxTime), maxTime) == CrashCount(runs, maxTime)
  {
    if runs != [] {
      var c := Censored(runs, maxTime);
      var prefix := runs[..|runs| - 1];
      CensorIdempotent(prefix, maxTime);
      assert c[..|c| - 1] == Censored(prefix, maxTime);
    }
  }

  /** Censoring and counting one more run extends the result of the shorter prefix. */
  lemma CensorStep(runs: seq<int>, i: int, maxTime: int)
    requires 0 <= i < |runs|
    ensures Censored(runs[..i + 1], maxTime) == Censored(runs[..i], maxTime) + [if runs[i] < maxTime then runs[i] else maxTime]
    ensures CrashCount(runs[..i + 1], maxTime) == CrashCount(runs[..i], maxTime) + if runs[i] < maxTime then 1 else 0
  {
    assert runs[..i + 1][..i] == runs[..i];
  }

  /** One row of the raw results with its crash count: the source's class `Result`. */
  class RunResult {
    var eId: int
    var fuzzer: string
    var target: string
    var seed: string
    var crashesFound: int
    var runs: seq<int>

    /** `Result(entry[0], entry[1], entry[2], entry[3], runs=...)` with the present runs of the row. */
    constructor FromRow(row: ResultRow)
      ensures eId == row.eId && fuzzer == row.fuzzer && target == row.target && seed == row.seed
      ensures crashesFound == 0
      ensures runs == PresentRuns(row.cells)
    {
      eId, fuzzer, target, seed := row.eId, row.fuzzer, row.target, row.seed;
      crashesFound := 0;
      runs := PresentRuns(row.cells);
    }

    /** Clamps every run at `maxTime` and counts the runs strictly below it. */
    method Censor(maxTime: int)
      modifies this
      ensures runs == Censored(old(runs), maxTime)
      ensures crashesFound == CrashCount(old(runs), maxTime)
      ensures eId == old(eId) && fuzzer == old(fuzzer) && target == old(target) && seed == old(seed)
    {
      var rs := runs;
      var temp: seq<int> := [];
      crashesFound := 0;
      for i := 0 to |rs|
        modifies this`crashesFound
        invariant temp == Censored(rs[..i], maxTime)
        invariant crashesFound == CrashCount(rs[..i], maxTime)
      {
        CensorStep(rs, i, maxTime);
        if rs[i] < maxTime {
          crashesFound := crashesFound + 1;
          temp := temp + [rs[i]];
        } else {
          temp := temp + [maxTime];
        }
      }
      assert rs[..|rs|] == rs;
      runs := temp;
    }
  }

  // ---------------------------------------------------------------------------
  // Name of the statistics database of one configuration
  // ---------------------------------------------------------------------------

  predicate IsDigit(c: char)
  {
    '0' <= c <= '9'
  }

  function DigitChar(d: int): (c: char)
    requires 0 <= d < 10
    ensures IsDigit(c) && c as int - '0' as int == d
  {
    (d + '0' as int) as char
  }

  /** Python's `str(n)` for a non-negative integer: its decimal digits. */
  function NatToString(n: nat): (s: string)
    ensures |s| >= 1
    ensures forall i :: 0 <= i < |s| ==> IsDigit(s[i])
  {
    if n < 10 then [DigitChar(n)] else NatToString(n / 10) + [DigitChar(n % 10)]
  }

  /** Python's `str(n)` for any integer. */
  function IntToString(n: int): (s: string)
  {
    if n < 0 then "-" + NatToString(-n) else NatToString(n)
  }

  /** "stat_db_r_<runs>_ta_<targets>_ti_<time>_<seed>.db" */
  function StatsDbName(maxRuns: int, targetCount: int, maxTime: int, seed: string): (name: string)
  {
    "stat_db_r_" + IntToString(maxRuns) + "_ta_" + IntToString(targetCount)
    + "_ti_" + IntToString(maxTime) + "_" + seed + ".db"
  }
}
