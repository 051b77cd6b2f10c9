/**
 * The coverage analysis (lines 362-396): for each rating level that has
 * rated programs, the share of those programs that each series holds, a
 * weighted score per series, and the series ranked by that score, each with
 * its weekdays by frequency. Percentages are exact reals here, where the page
 * computes Python floats.
 */
module CoverageScorer {
  import opened Wrappers
  import opened Sequences
  import opened Catalogue

  /** The session's rating map; 0 means "not rated". */
  type Ratings = map<ProgramId, int>

  /** `range(1, 4)`. */
  const Levels: seq<int> := [1, 2, 3]

  /** What the analysis page draws from. */
  datatype Analysis = Analysis(
    coverage: map<string, map<int, real>>,
    ranking: seq<string>)

  /** `rated_programs`: the programs with a positive rating. */
  function RatedPrograms(ratings: Ratings): set<ProgramId>
  {
    set pid | pid in ratings && ratings[pid] > 0
  }

  /** `programs_in_rate`: the programs rated exactly `level`. */
  function RatedAt(ratings: Ratings, level: int): set<ProgramId>
  {
    set pid | pid in ratings && ratings[pid] == level
  }

  /** `programs_in_serie`: the programs with a row in the series. */
  function ProgramsIn(df: seq<Row>, serie: string): set<ProgramId>
  {
    set row | row in df && row.serie == Some(serie) :: row.programId
  }

  /** The series' programs are the distinct program ids of its rows, `df[df["serie"] == serie]`. */
  lemma ProgramsInRowsOfSeries(df: seq<Row>, serie: string)
    ensures ProgramsIn(df, serie) == set row | row in RowsOfSeries(df, serie) :: row.programId
  {
  }

  /**
   * With every rating within 0..3, the rated programs split into the three
   * levels, each program into exactly one.
   */
  lemma RatedSplitsIntoLevels(ratings: Ratings)
    requires forall pid :: pid in ratings ==> 0 <= ratings[pid] <= 3
    ensures RatedPrograms(ratings) == RatedAt(ratings, 1) + RatedAt(ratings, 2) + RatedAt(ratings, 3)
    ensures RatedAt(ratings, 1) * RatedAt(ratings, 2) == {} && RatedAt(ratings, 1) * RatedAt(ratings, 3) == {}
    ensures RatedAt(ratings, 2) * RatedAt(ratings, 3) == {}
  {
  }

  lemma IntersectionNoLarger<T>(a: set<T>, b: set<T>)
    ensures |a * b| <= |a|
  {
    assert a * b <= a;
    SubsetNoLarger(a * b, a);
  }

  lemma {:induction false} SubsetNoLarger<T>(a: set<T>, b: set<T>)
    requires a <= b
    ensures |a| <= |b|
  {
    if a != {} {
      var x :| x in a;
      SubsetNoLarger(a - {x}, b - {x});
    }
  }

  /**
   * `rel_cov`: the percentage of the programs rated `level` that belong to
   * the series; always between 0 and 100.
   */
  function Coverage(df: seq<Row>, ratings: Ratings, serie: string, level: int): (c: real)
    requires RatedAt(ratings, level) != {}
    ensures 0.0 <= c <= 100.0
  {
    var rated := RatedAt(ratings, level);
    IntersectionNoLarger(rated, ProgramsIn(df, serie));
    (|rated * ProgramsIn(df, serie)| as real) / (|rated| as real) * 100.0
  }

  lemma CoverageIsShare(df: seq<Row>, ratings: Ratings, serie: string, level: int)
    requires RatedAt(ratings, level) != {}
    ensures Coverage(df, ratings, serie, level)
      == (|RatedAt(ratings, level) * ProgramsIn(df, serie)| as real) / (|RatedAt(ratings, level)| as real) * 100.0
  {
  }

  /** The levels that have at least one rated program. */
  function ActiveLevels(ratings: Ratings): set<int>
  {
    set level | level in Levels && RatedAt(ratings, level) != {}
  }

  /** One series' entries for the given levels. */
  function LevelCoverage(df: seq<Row>, ratings: Ratings, serie: string, levels: set<int>): map<int, real>
    requires forall level :: level in levels ==> RatedAt(ratings, level) != {}
  {
    map level | level in levels :: Coverage(df, ratings, serie, level)
  }

  /**
   * `coverage_data` once filled: every catalogue series gets an entry for
   * every active level; no active level, no entries.
   */
  function CoverageData(df: seq<Row>, ratings: Ratings): map<string, map<int, real>>
  {
    if ActiveLevels(ratings) == {} then map[]
    else map serie | serie in SeriesValues(df) :: LevelCoverage(df, ratings, serie, ActiveLevels(ratings))
  }

  /** The insertion order of `coverage_data`'s keys. */
  function SeriesKeys(df: seq<Row>, ratings: Ratings): seq<string>
  {
    if ActiveLevels(ratings) == {} then [] else SeriesValues(df)
  }

  /** The priority score: 5 for each point of level-3 coverage, 3 for level 2, 1 for level 1. */
  function Score(levels: map<int, real>): real
  {
    GetOr(levels, 3, 0.0) * 5.0 + GetOr(levels, 2, 0.0) * 3.0 + GetOr(levels, 1, 0.0) * 1.0
  }

  /** `series_scores`. */
  function Scores(coverage: map<string, map<int, real>>, keys: seq<string>): map<string, real>
    requires forall serie :: serie in keys ==> serie in coverage
  {
    map serie | serie in keys :: Score(coverage[serie])
  }

  /** `series_names`: the keys stably sorted by descending score. */
  function Ranking(df: seq<Row>, ratings: Ratings): seq<string>
  {
    var keys := SeriesKeys(df, ratings);
    RankByScore(keys, Scores(CoverageData(df, ratings), keys))
  }

  /** `df[df['serie'] == serie]`: the series' rows, each as often as the catalogue holds it. */
  function RowsOfSeries(df: seq<Row>, serie: string): (r: seq<Row>)
    ensures forall row :: row in r <==> row in df && row.serie == Some(serie)
    ensures forall row :: multiset(r)[row] == if row.serie == Some(serie) then multiset(df)[row] else 0
  {
    if df == [] then []
    else
      assert df == [df[0]] + df[1..];
      (if df[0].serie == Some(serie) then [df[0]] else []) + RowsOfSeries(df[1..], serie)
  }

  /** How many of the rows fall on the weekday. */
  function WeekdayCount(rows: seq<Row>, weekday: string): nat
  {
    if rows == [] then 0
    else (if rows[0].diaSemana == Some(weekday) then 1 else 0) + WeekdayCount(rows[1..], weekday)
  }

  /**
   * `value_counts().index`: the series' weekdays, most frequent first. Ties
   * are broken alphabetically here.
   */
  function WeekdayMix(df: seq<Row>, serie: string): seq<string>
  {
    var rows := RowsOfSeries(df, serie);
    RankByScore(WeekdayValues(rows), DayCounts(rows))
  }

  /** `value_counts()` on the weekday column: each weekday's number of rows. */
  function DayCounts(rows: seq<Row>): map<string, real>
  {
    map day | day in WeekdayValues(rows) :: WeekdayCount(rows, day) as real
  }

  /**
   * `value_counts()` counts the non-null weekdays: its keys are exactly the
   * weekdays present, each with its number of occurrences, so never zero.
   */
  lemma DayCountsAreMultiplicities(rows: seq<Row>)
    ensures var present := multiset(Present(WeekdayColumn(rows)));
      forall day :: (day in DayCounts(rows) <==> day in present)
        && (day in DayCounts(rows) ==> DayCounts(rows)[day] == present[day] as real && DayCounts(rows)[day] >= 1.0)
    ensures forall day :: day in DayCounts(rows) ==> DayCounts(rows)[day] == multiset(WeekdayColumn(rows))[Some(day)] as real
  {
    var present := multiset(Present(WeekdayColumn(rows)));
    forall day ensures (day in DayCounts(rows) <==> day in present)
      && (day in DayCounts(rows) ==> DayCounts(rows)[day] == present[day] as real && DayCounts(rows)[day] >= 1.0)
      && (day in DayCounts(rows) ==> DayCounts(rows)[day] == multiset(WeekdayColumn(rows))[Some(day)] as real)
    {
      WeekdayCountIsMultiplicity(rows, day);
      PresentMultiplicity(WeekdayColumn(rows), day);
      assert day in present <==> day in Present(WeekdayColumn(rows));
    }
  }

  lemma DayCountOf(rows: seq<Row>, day: string)
    requires day in DayCounts(rows)
    ensures DayCounts(rows)[day] == WeekdayCount(rows, day) as real
  {
  }

  lemma {:induction false} WeekdayCountIsMultiplicity(rows: seq<Row>, day: string)
    ensures WeekdayCount(rows, day) == multiset(Present(WeekdayColumn(rows)))[day]
  {
    if rows != [] {
      WeekdayCountIsMultiplicity(rows[1..], day);
      var column := WeekdayColumn(rows);
      assert column[1..] == WeekdayColumn(rows[1..]);
      assert column[0] == rows[0].diaSemana;
    }
  }

  // ---------------------------------------------------------------------------
  // The page's loops
  // ---------------------------------------------------------------------------

  /** The active levels below `rate`: those the outer loop has finished. */
  ghost function DoneLevels(ratings: Ratings, rate: int): set<int>
  {
    set level | level in ActiveLevels(ratings) && level < rate
  }

  lemma DoneLevelsStep(ratings: Ratings, rate: int)
    requires 1 <= rate <= 3
    ensures RatedAt(ratings, rate) != {} ==> DoneLevels(ratings, rate + 1) == DoneLevels(ratings, rate) + {rate}
    ensures RatedAt(ratings, rate) == {} ==> DoneLevels(ratings, rate + 1) == DoneLevels(ratings, rate)
  {
    assert rate in Levels;
  }

  lemma DoneLevelsAll(ratings: Ratings)
    ensures DoneLevels(ratings, 1) == {}
    ensures DoneLevels(ratings, 4) == ActiveLevels(ratings)
  {
  }

  /** A series' entry holds exactly the coverages of `levels`. */
  ghost predicate LevelsFilled(df: seq<Row>, ratings: Ratings, serie: string, entry: map<int, real>, levels: set<int>)
  {
    forall level :: (level in entry <==> level in levels)
      && (level in entry ==> RatedAt(ratings, level) != {} && entry[level] == Coverage(df, ratings, serie, level))
  }

  lemma LevelsFilledAdd(df: seq<Row>, ratings: Ratings, serie: string, entry: map<int, real>, levels: set<int>, level: int)
    requires LevelsFilled(df, ratings, serie, entry, levels)
    requires RatedAt(ratings, level) != {}
    ensures LevelsFilled(df, ratings, serie, entry[level := Coverage(df, ratings, serie, level)], levels + {level})
  {
  }

  lemma LevelsFilledIsLevelCoverage(df: seq<Row>, ratings: Ratings, serie: string, entry: map<int, real>)
    requires LevelsFilled(df, ratings, serie, entry, ActiveLevels(ratings))
    ensures entry == LevelCoverage(df, ratings, serie, ActiveLevels(ratings))
  {
    var expected := LevelCoverage(df, ratings, serie, ActiveLevels(ratings));
    forall level ensures level in entry <==> level in expected {
      assert level in entry <==> level in ActiveLevels(ratings);
    }
    assert entry.Keys == expected.Keys;
  }

  /** The state of the fill after the outer loop has done the levels in `done`. */
  ghost predicate Filled(df: seq<Row>, ratings: Ratings, series: seq<string>, done: set<int>,
                         coverage: map<string, map<int, real>>, keys: seq<string>)
  {
    && keys == (if done == {} then [] else series)
    && (forall s :: s in coverage <==> done != {} && s in series)
    && (forall s :: s in coverage ==> LevelsFilled(df, ratings, s, coverage[s], done))
  }

  lemma FilledIsCoverageData(df: seq<Row>, ratings: Ratings, coverage: map<string, map<int, real>>, keys: seq<string>)
    requires Filled(df, ratings, SeriesValues(df), ActiveLevels(ratings), coverage, keys)
    ensures coverage == CoverageData(df, ratings)
    ensures keys == SeriesKeys(df, ratings)
    ensures forall serie :: serie in coverage <==> serie in keys
  {
    forall s | s in coverage ensures coverage[s] == CoverageData(df, ratings)[s] {
      LevelsFilledIsLevelCoverage(df, ratings, s, coverage[s]);
    }
  }

  /**
   * The state of the fill after the outer loop has done the levels in `done`
   * and the inner loop, at level `rate`, the first `j` series.
   */
  ghost predicate Partial(df: seq<Row>, ratings: Ratings, series: seq<string>, done: set<int>, rate: int, j: int,
                          coverage: map<string, map<int, real>>, keys: seq<string>)
    requires 0 <= j <= |series|
  {
    && keys == (if done == {} then series[..j] else series)
    && (forall s :: s in coverage <==> s in series[..j] || (done != {} && s in series))
    && (forall s :: s in coverage && s in series[..j] ==> LevelsFilled(df, ratings, s, coverage[s], done + {rate}))
    && (forall s :: s in coverage && s !in series[..j] ==> LevelsFilled(df, ratings, s, coverage[s], done))
  }

  /** Storing a filled entry for the next series advances the inner loop. */
  lemma PartialUpdate(df: seq<Row>, ratings: Ratings, series: seq<string>, done: set<int>, rate: int, j: int,
                      coverage: map<string, map<int, real>>, keys: seq<string>, entry: map<int, real>, newKeys: seq<string>)
    requires 0 <= j < |series| && series[j] !in series[..j]
    requires Partial(df, ratings, series, done, rate, j, coverage, keys)
    requires LevelsFilled(df, ratings, series[j], entry, done + {rate})
    requires newKeys == if series[j] in coverage then keys else keys + [series[j]]
    ensures Partial(df, ratings, series, done, rate, j + 1, coverage[series[j] := entry], newKeys)
  {
    assert series[..j + 1] == series[..j] + [series[j]];
    PartialUpdateKeys(series, done, j, coverage, keys, entry, newKeys);
    PartialUpdateEntries(df, ratings, series, done, rate, j, coverage, entry);
  }

  /** The keys and the key order after storing the entry of `series[j]`. */
  lemma PartialUpdateKeys(series: seq<string>, done: set<int>, j: int,
                          coverage: map<string, map<int, real>>, keys: seq<string>, entry: map<int, real>, newKeys: seq<string>)
    requires 0 <= j < |series| && series[..j + 1] == series[..j] + [series[j]] && series[j] !in series[..j]
    requires keys == (if done == {} then series[..j] else series)
    requires forall s :: s in coverage <==> s in series[..j] || (done != {} && s in series)
    requires newKeys == if series[j] in coverage then keys else keys + [series[j]]
    ensures newKeys == (if done == {} then series[..j + 1] else series)
    ensures forall s :: s in coverage[series[j] := entry] <==> s in series[..j + 1] || (done != {} && s in series)
  {
    if done == {} {
      assert series[j] !in coverage;
    } else {
      assert series[j] in coverage;
    }
  }

  /** The entries after storing the entry of `series[j]`. */
  lemma PartialUpdateEntries(df: seq<Row>, ratings: Ratings, series: seq<string>, done: set<int>, rate: int, j: int,
                             coverage: map<string, map<int, real>>, entry: map<int, real>)
    requires 0 <= j < |series| && series[..j + 1] == series[..j] + [series[j]]
    requires forall s :: s in coverage && s in series[..j] ==> LevelsFilled(df, ratings, s, coverage[s], done + {rate})
    requires forall s :: s in coverage && s !in series[..j] ==> LevelsFilled(df, ratings, s, coverage[s], done)
    requires LevelsFilled(df, ratings, series[j], entry, done + {rate})
    ensures var updated := coverage[series[j] := entry];
      forall s :: s in updated && s in series[..j + 1] ==> LevelsFilled(df, ratings, s, updated[s], done + {rate})
    ensures var updated := coverage[series[j] := entry];
      forall s :: s in updated && s !in series[..j + 1] ==> LevelsFilled(df, ratings, s, updated[s], done)
  {
    var updated := coverage[series[j] := entry];
    forall s | s in updated && s in series[..j + 1]
      ensures LevelsFilled(df, ratings, s, updated[s], done + {rate})
    {
      if s != series[j] {
        assert s in series[..j];
      }
    }
  }

  /** One pass of the inner loop body. */
  lemma PartialStep(df: seq<Row>, ratings: Ratings, series: seq<string>, done: set<int>, rate: int, j: int,
                    coverage: map<string, map<int, real>>, keys: seq<string>, absCov: nat, relCov: real)
    requires 0 <= j < |series| && Distinct(series) && RatedAt(ratings, rate) != {}
    requires Partial(df, ratings, series, done, rate, j, coverage, keys)
    requires absCov == |RatedAt(ratings, rate) * ProgramsIn(df, series[j])|
    requires relCov == absCov as real / |RatedAt(ratings, rate)| as real * 100.0
    ensures var serie := series[j];
      serie in coverage ==> Partial(df, ratings, series, done, rate, j + 1,
        coverage[serie := coverage[serie][rate := relCov]], keys)
    ensures var serie := series[j];
      serie !in coverage ==> Partial(df, ratings, series, done, rate, j + 1,
        coverage[serie := map[rate := relCov]], keys + [serie])
  {
    var serie := series[j];
    CoverageIsShare(df, ratings, serie, rate);
    DistinctPrefix(series, j);
    if serie in coverage {
      LevelsFilledAdd(df, ratings, serie, coverage[serie], done, rate);
      PartialUpdate(df, ratings, series, done, rate, j, coverage, keys, coverage[serie][rate := relCov], keys);
    } else {
      assert done == {};
      assert done + {rate} == {rate};
      PartialUpdate(df, ratings, series, done, rate, j, coverage, keys, map[rate := relCov], keys + [serie]);
    }
  }

  /** In a list without repeats, an element does not occur before its position. */
  lemma DistinctPrefix(series: seq<string>, j: int)
    requires 0 <= j < |series| && Distinct(series)
    ensures series[j] !in series[..j]
  {
    forall k | 0 <= k < j ensures series[..j][k] != series[j] {
      assert series[..j][k] == series[k];
    }
  }

  /** Before the inner loop, its state is the outer loop's. */
  lemma PartialStart(df: seq<Row>, ratings: Ratings, series: seq<string>, done: set<int>, rate: int,
                     coverage: map<string, map<int, real>>, keys: seq<string>)
    requires Filled(df, ratings, series, done, coverage, keys)
    ensures Partial(df, ratings, series, done, rate, 0, coverage, keys)
  {
    assert series[..0] == [];
  }

  /** After the inner loop, level `rate` is done. */
  lemma PartialEnd(df: seq<Row>, ratings: Ratings, series: seq<string>, done: set<int>, rate: int,
                   coverage: map<string, map<int, real>>, keys: seq<string>)
    requires Partial(df, ratings, series, done, rate, |series|, coverage, keys)
    ensures Filled(df, ratings, series, done + {rate}, coverage, keys)
  {
    assert series[..|series|] == series;
  }


  /**
   * Lines 364-373: fills `coverage_data` level by level, series by series,
   * creating a series' entry on its first level (the defaultdict).
   */
  method FillCoverage(df: seq<Row>, ratings: Ratings) returns (coverage: map<string, map<int, real>>, keys: seq<string>)
    ensures coverage == CoverageData(df, ratings)
    ensures keys == SeriesKeys(df, ratings)
    ensures forall serie :: serie in coverage <==> serie in keys
  {
    coverage, keys := map[], [];
    var series := SeriesValues(df);
    ValueListsIncreasing(df);
    DoneLevelsAll(ratings);
    ghost var done: set<int> := {};
    for rate := 1 to 4
      invariant done == DoneLevels(ratings, rate)
      invariant Filled(df, ratings, series, done, coverage, keys)
    {
      DoneLevelsStep(ratings, rate);
      var programsInRate := RatedAt(ratings, rate);
      if |programsInRate| > 0 {
        PartialStart(df, ratings, series, done, rate, coverage, keys);
        for j := 0 to |series|
          invariant Partial(df, ratings, series, done, rate, j, coverage, keys)
        {
          var serie := series[j];
          var programsInSerie := ProgramsIn(df, serie);
          var absCov := |programsInRate * programsInSerie|;
          var relCov := absCov as real / |programsInRate| as real * 100.0;
          PartialStep(df, ratings, series, done, rate, j, coverage, keys, absCov, relCov);
          // `coverage_data[serie][rate] = rel_cov` on the defaultdict: the
          // first access to a series creates its entry.
          if serie in coverage {
            coverage := coverage[serie := coverage[serie][rate := relCov]];
          } else {
            keys := keys + [serie];
            coverage := coverage[serie := map[rate := relCov]];
          }
        }
        PartialEnd(df, ratings, series, done, rate, coverage, keys);
        done := done + {rate};
      }
    }
    FilledIsCoverageData(df, ratings, coverage, keys);
  }

  /** Lines 379-387: the score of every key of `coverage_data`. */
  method ScoreSeries(coverage: map<string, map<int, real>>, keys: seq<string>) returns (scores: map<string, real>)
    requires forall serie :: serie in keys ==> serie in coverage
    ensures scores == Scores(coverage, keys)
  {
    scores := map[];
    for i := 0 to |keys|
      invariant scores == Scores(coverage, keys[..i])
    {
      assert keys[..i + 1] == keys[..i] + [keys[i]];
      scores := scores[keys[i] := Score(coverage[keys[i]])];
    }
    assert keys[..|keys|] == keys;
  }

  /**
   * Lines 362-387: nothing when no program has a positive rating (the page
   * shows a placeholder instead); otherwise the coverage entries and the
   * ranking. The page then draws one card per ranked series, in ranking
   * order, listing `WeekdayMix(df, serie)`.
   */
  method AnalyseCoverage(df: seq<Row>, ratings: Ratings) returns (result: Option<Analysis>)
    ensures result.None? <==> RatedPrograms(ratings) == {}
    ensures result.Some? ==> result.value.coverage == CoverageData(df, ratings)
    ensures result.Some? ==> result.value.ranking == Ranking(df, ratings)
  {
    var ratedPrograms := RatedPrograms(ratings);
    if |ratedPrograms| == 0 {
      return None;
    }
    var coverage, keys := FillCoverage(df, ratings);
    var scores := ScoreSeries(coverage, keys);
    var seriesNames := RankByScore(keys, scores);
    result := Some(Analysis(coverage, seriesNames));
  }

  // ---------------------------------------------------------------------------
  // Properties
  // ---------------------------------------------------------------------------

  /**
   * The entries: each catalogue series has one for exactly the active
   * levels, each between 0 and 100; without a positive rating there are
   * none.
   */
  lemma CoverageEntries(df: seq<Row>, ratings: Ratings)
    ensures RatedPrograms(ratings) == {} ==> CoverageData(df, ratings) == map[]
    ensures forall serie :: serie in CoverageData(df, ratings) <==>
      ActiveLevels(ratings) != {} && exists row :: row in df && row.serie == Some(serie)
    ensures forall serie, level :: serie in CoverageData(df, ratings) ==>
      (level in CoverageData(df, ratings)[serie] <==> level in Levels && exists pid :: pid in ratings && ratings[pid] == level)
    ensures forall serie, level :: serie in CoverageData(df, ratings) && level in CoverageData(df, ratings)[serie] ==>
      0.0 <= CoverageData(df, ratings)[serie][level] <= 100.0
  {
    if RatedPrograms(ratings) == {} {
      forall level | level in Levels ensures RatedAt(ratings, level) == {} {
        assert forall pid :: pid in RatedAt(ratings, level) ==> pid in RatedPrograms(ratings);
      }
    }
    forall level | level in Levels && (exists pid :: pid in ratings && ratings[pid] == level)
      ensures RatedAt(ratings, level) != {}
    {
      var pid :| pid in ratings && ratings[pid] == level;
      assert pid in RatedAt(ratings, level);
    }
  }

  /** The score lies between 0 and 900 when every coverage does. */
  lemma ScoreBounds(levels: map<int, real>)
    requires forall level :: level in levels ==> 0.0 <= levels[level] <= 100.0
    ensures 0.0 <= Score(levels) <= 900.0
  {
  }

  /**
   * The ranking lists every key once, scores never increase along it, and
   * equal scores keep the alphabetical order the keys were inserted in.
   */
  lemma RankingOrdered(df: seq<Row>, ratings: Ratings)
    ensures multiset(Ranking(df, ratings)) == multiset(SeriesKeys(df, ratings))
    ensures forall serie :: serie in Ranking(df, ratings) ==> serie in Scores(CoverageData(df, ratings), SeriesKeys(df, ratings))
    ensures RankedBy(Ranking(df, ratings), Scores(CoverageData(df, ratings), SeriesKeys(df, ratings)), StrLess)
    ensures Distinct(Ranking(df, ratings))
  {
    var keys := SeriesKeys(df, ratings);
    var scores := Scores(CoverageData(df, ratings), keys);
    ValueListsIncreasing(df);
    RankByScoreRanked(keys, scores, StrLess);
    RankedDistinct(Ranking(df, ratings), scores);
  }

  lemma RankedDistinct(r: seq<string>, score: map<string, real>)
    requires forall x :: x in r ==> x in score
    requires RankedBy(r, score, StrLess)
    ensures Distinct(r)
  {
    forall i, j | 0 <= i < j < |r| ensures r[i] != r[j] {
      assert Before(r[i], r[j], score, StrLess);
      StrLessIrreflexive(r[i]);
    }
  }

  /**
   * The weekday mix of a series: each weekday of its rows once, the more
   * frequent first.
   */
  lemma WeekdayMixOrdered(df: seq<Row>, serie: string)
    ensures forall day :: day in WeekdayMix(df, serie) <==>
      exists row :: row in df && row.serie == Some(serie) && row.diaSemana == Some(day)
    ensures Distinct(WeekdayMix(df, serie))
    ensures forall i, j :: 0 <= i < j < |WeekdayMix(df, serie)| ==>
      WeekdayCount(RowsOfSeries(df, serie), WeekdayMix(df, serie)[i])
        >= WeekdayCount(RowsOfSeries(df, serie), WeekdayMix(df, serie)[j])
  {
    WeekdayMixMembers(df, serie);
    WeekdayMixRanked(RowsOfSeries(df, serie));
  }

  lemma WeekdayMixMembers(df: seq<Row>, serie: string)
    ensures forall day :: day in WeekdayMix(df, serie) <==>
      exists row :: row in df && row.serie == Some(serie) && row.diaSemana == Some(day)
  {
    var rows := RowsOfSeries(df, serie);
    RankByScoreMembers(WeekdayValues(rows), DayCounts(rows));
  }

  lemma WeekdayMixRanked(rows: seq<Row>)
    ensures var mix := RankByScore(WeekdayValues(rows), DayCounts(rows));
      Distinct(mix) && forall i, j :: 0 <= i < j < |mix| ==> WeekdayCount(rows, mix[i]) >= WeekdayCount(rows, mix[j])
  {
    var days := WeekdayValues(rows);
    var counts := DayCounts(rows);
    var mix := RankByScore(days, counts);
    ValueListsIncreasing(rows);
    RankByScoreRanked(days, counts, StrLess);
    RankByScoreMembers(days, counts);
    RankedDistinct(mix, counts);
    forall i, j | 0 <= i < j < |mix|
      ensures WeekdayCount(rows, mix[i]) >= WeekdayCount(rows, mix[j])
    {
      assert Before(mix[i], mix[j], counts, StrLess);
      DayCountOf(rows, mix[i]);
      DayCountOf(rows, mix[j]);
    }
  }

  // ---------------------------------------------------------------------------
  // The coverages of one level add up to 100
  // ---------------------------------------------------------------------------

  /** The coverages of `level` summed over `series`. */
  function SumCoverage(df: seq<Row>, ratings: Ratings, level: int, series: seq<string>): real
    requires RatedAt(ratings, level) != {}
  {
    if series == [] then 0.0
    else Coverage(df, ratings, series[0], level) + SumCoverage(df, ratings, level, series[1..])
  }

  /** The programs of all the listed series. */
  function ProgramsOfAll(df: seq<Row>, series: seq<string>): set<ProgramId>
  {
    if series == [] then {} else ProgramsIn(df, series[0]) + ProgramsOfAll(df, series[1..])
  }

  /** Each of the `rated` programs is listed under at most one series. */
  ghost predicate SingleSeries(df: seq<Row>, rated: set<ProgramId>)
  {
    forall pid, a, b :: pid in rated && pid in ProgramsIn(df, a) && pid in ProgramsIn(df, b) ==> a == b
  }

  lemma {:induction false} SumCoverageCounts(df: seq<Row>, ratings: Ratings, level: int, series: seq<string>)
    requires RatedAt(ratings, level) != {}
    requires SingleSeries(df, RatedAt(ratings, level)) && Distinct(series)
    ensures SumCoverage(df, ratings, level, series)
      == (|RatedAt(ratings, level) * ProgramsOfAll(df, series)| as real) / (|RatedAt(ratings, level)| as real) * 100.0
  {
    var rated := RatedAt(ratings, level);
    if series != [] {
      var rest := series[1..];
      DistinctTail(series);
      SumCoverageCounts(df, ratings, level, rest);
      UnionCount(df, rated, series);
      CoverageIsShare(df, ratings, series[0], level);
      PercentAdd(|rated * ProgramsIn(df, series[0])|, |rated * ProgramsOfAll(df, rest)|,
        |rated * ProgramsOfAll(df, series)|, |rated|,
        Coverage(df, ratings, series[0], level), SumCoverage(df, ratings, level, rest));
    }
  }

  lemma DistinctTail(series: seq<string>)
    requires Distinct(series) && series != []
    ensures Distinct(series[1..])
  {
    var rest := series[1..];
    forall i, k | 0 <= i < k < |rest| ensures rest[i] != rest[k] {
      assert rest[i] == series[i + 1] && rest[k] == series[k + 1];
    }
  }

  /** The rated programs in the listed series split between the first series and the others. */
  lemma UnionCount(df: seq<Row>, rated: set<ProgramId>, series: seq<string>)
    requires SingleSeries(df, rated) && Distinct(series) && series != []
    ensures |rated * ProgramsOfAll(df, series)|
      == |rated * ProgramsIn(df, series[0])| + |rated * ProgramsOfAll(df, series[1..])|
  {
    var head := rated * ProgramsIn(df, series[0]);
    var tail := rated * ProgramsOfAll(df, series[1..]);
    HeadDisjoint(df, rated, series);
    DisjointUnionSize(head, tail);
    assert rated * ProgramsOfAll(df, series) == head + tail;
  }

  /** With each rated program in one series, the first series shares no rated program with the others. */
  lemma HeadDisjoint(df: seq<Row>, rated: set<ProgramId>, series: seq<string>)
    requires SingleSeries(df, rated) && Distinct(series) && series != []
    ensures forall pid :: pid in rated && pid in ProgramsIn(df, series[0]) ==> pid !in ProgramsOfAll(df, series[1..])
  {
    var rest := series[1..];
    assert series[0] !in rest by {
      forall k | 0 <= k < |rest| ensures rest[k] != series[0] {
        assert rest[k] == series[k + 1];
      }
    }
    forall pid | pid in rated ensures pid in ProgramsIn(df, series[0]) ==> pid !in ProgramsOfAll(df, rest) {
      OutsideOtherSeries(df, rated, pid, series[0], rest);
    }
  }

  lemma {:induction false} OutsideOtherSeries(df: seq<Row>, rated: set<ProgramId>, pid: ProgramId, serie: string, others: seq<string>)
    requires SingleSeries(df, rated) && pid in rated && serie !in others
    ensures pid in ProgramsIn(df, serie) ==> pid !in ProgramsOfAll(df, others)
  {
    if others != [] {
      assert serie != others[0] && serie !in others[1..];
      OutsideOtherSeries(df, rated, pid, serie, others[1..]);
    }
  }

  lemma DisjointUnionSize<T>(a: set<T>, b: set<T>)
    requires a * b == {}
    ensures |a + b| == |a| + |b|
  {
  }

  /** The percentages of two disjoint parts add up to the percentage of their union. */
  lemma PercentAdd(a: nat, b: nat, union: nat, n: nat, pa: real, pb: real)
    requires n > 0 && union == a + b
    requires pa == a as real / n as real * 100.0 && pb == b as real / n as real * 100.0
    ensures pa + pb == union as real / n as real * 100.0
  {
    var p, q, m := a as real / n as real, b as real / n as real, n as real;
    assert p * m == a as real && q * m == b as real;
    assert (p + q) * m == union as real;
  }

  lemma PercentWhole(n: real)
    requires n > 0.0
    ensures n / n * 100.0 == 100.0
  {
  }

  /** The listed series cover the programs of each of them. */
  lemma {:induction false} ProgramsOfAllCovers(df: seq<Row>, series: seq<string>, s: string)
    requires s in series
    ensures ProgramsIn(df, s) <= ProgramsOfAll(df, series)
  {
    if series[0] != s {
      ProgramsOfAllCovers(df, series[1..], s);
    }
  }

  /**
   * For a level with rated programs, when each of them appears in the
   * catalogue under exactly one series, the coverages of that level over
   * all series add up to 100.
   */
  lemma CoverageSumsTo100(df: seq<Row>, ratings: Ratings, level: int)
    requires RatedAt(ratings, level) != {}
    requires SingleSeries(df, RatedAt(ratings, level))
    requires forall pid :: pid in RatedAt(ratings, level) ==>
      exists row :: row in df && row.programId == pid && row.serie.Some?
    ensures SumCoverage(df, ratings, level, SeriesValues(df)) == 100.0
  {
    var rated := RatedAt(ratings, level);
    var series := SeriesValues(df);
    StringValuesIncreasing(SeriesColumn(df));
    SumCoverageCounts(df, ratings, level, series);
    forall pid | pid in rated ensures pid in ProgramsOfAll(df, series) {
      var row :| row in df && row.programId == pid && row.serie.Some?;
      ProgramsOfAllCovers(df, series, row.serie.value);
    }
    assert rated * ProgramsOfAll(df, series) == rated;
    PercentWhole(|rated| as real);
  }

  // ---------------------------------------------------------------------------
  // A worked example
  // ---------------------------------------------------------------------------

  /** Three programs, two in series "A" and one in "B". */
  function ExampleCatalogue(): seq<Row>
  {
    [Row("P1", Some("A"), None, None, None),
     Row("P2", Some("B"), None, None, None),
     Row("P3", Some("A"), None, None, None)]
  }

  function ExampleRatings(): Ratings
  {
    map["P1" := 3, "P2" := 1]
  }

  lemma ExampleRated()
    ensures RatedAt(ExampleRatings(), 1) == {"P2"}
    ensures RatedAt(ExampleRatings(), 2) == {}
    ensures RatedAt(ExampleRatings(), 3) == {"P1"}
  {
    var ratings := ExampleRatings();
    assert "P1" in ratings && "P2" in ratings;
    assert forall pid :: pid in ratings ==> pid == "P1" || pid == "P2";
  }

  lemma ExampleActive()
    ensures ActiveLevels(ExampleRatings()) == {1, 3}
  {
    ExampleRated();
    assert "P2" in RatedAt(ExampleRatings(), 1) && "P1" in RatedAt(ExampleRatings(), 3);
  }

  lemma ExamplePrograms()
    ensures ProgramsIn(ExampleCatalogue(), "A") == {"P1", "P3"}
    ensures ProgramsIn(ExampleCatalogue(), "B") == {"P2"}
  {
    var df := ExampleCatalogue();
    assert df[0] in df && df[1] in df && df[2] in df;
  }

  lemma ExampleSeriesMembers()
    ensures forall s :: s in SeriesValues(ExampleCatalogue()) <==> s in ["A", "B"]
  {
    var df := ExampleCatalogue();
    assert df[0] in df && df[1] in df;
    forall s | s in SeriesValues(df) ensures s in ["A", "B"] {
      var row :| row in df && row.serie == Some(s);
    }
  }

  lemma ExampleSeries()
    ensures SeriesValues(ExampleCatalogue()) == ["A", "B"]
  {
    var df := ExampleCatalogue();
    ExampleSeriesMembers();
    StringValuesIncreasing(SeriesColumn(df));
    StrLessIsStrictTotalOrder();
    assert Increasing(["A", "B"], StrLess) by {
      assert StrLess("A", "B");
    }
    IncreasingUnique(SeriesValues(df), ["A", "B"], StrLess);
  }

  lemma ExampleCoveragesA()
    ensures RatedAt(ExampleRatings(), 1) != {} && RatedAt(ExampleRatings(), 3) != {}
    ensures Coverage(ExampleCatalogue(), ExampleRatings(), "A", 1) == 0.0
    ensures Coverage(ExampleCatalogue(), ExampleRatings(), "A", 3) == 100.0
  {
    var df, ratings := ExampleCatalogue(), ExampleRatings();
    ExampleRated();
    ExamplePrograms();
    assert {"P2"} * {"P1", "P3"} == {} && {"P1"} * {"P1", "P3"} == {"P1"};
    CoverageIsShare(df, ratings, "A", 1);
    CoverageIsShare(df, ratings, "A", 3);
  }

  lemma ExampleCoveragesB()
    ensures RatedAt(ExampleRatings(), 1) != {} && RatedAt(ExampleRatings(), 3) != {}
    ensures Coverage(ExampleCatalogue(), ExampleRatings(), "B", 1) == 100.0
    ensures Coverage(ExampleCatalogue(), ExampleRatings(), "B", 3) == 0.0
  {
    var df, ratings := ExampleCatalogue(), ExampleRatings();
    ExampleRated();
    ExamplePrograms();
    assert {"P1"} * {"P2"} == {} && {"P2"} * {"P2"} == {"P2"};
    CoverageIsShare(df, ratings, "B", 1);
    CoverageIsShare(df, ratings, "B", 3);
  }

  lemma ExampleCoverageData()
    ensures var cov := CoverageData(ExampleCatalogue(), ExampleRatings());
      && cov.Keys == {"A", "B"}
      && cov["A"] == map[1 := 0.0, 3 := 100.0]
      && cov["B"] == map[1 := 100.0, 3 := 0.0]
  {
    var df, ratings := ExampleCatalogue(), ExampleRatings();
    ExampleActive();
    ExampleSeries();
    ExampleLevelCoverage();
    var levels := ActiveLevels(ratings);
    assert 1 in levels;
    var cov := CoverageData(df, ratings);
    assert cov == map serie | serie in ["A", "B"] :: LevelCoverage(df, ratings, serie, {1, 3});
  }

  lemma ExampleLevelCoverage()
    ensures RatedAt(ExampleRatings(), 1) != {} && RatedAt(ExampleRatings(), 3) != {}
    ensures LevelCoverage(ExampleCatalogue(), ExampleRatings(), "A", {1, 3}) == map[1 := 0.0, 3 := 100.0]
    ensures LevelCoverage(ExampleCatalogue(), ExampleRatings(), "B", {1, 3}) == map[1 := 100.0, 3 := 0.0]
  {
    ExampleCoveragesA();
    ExampleCoveragesB();
    TwoLevels(ExampleCatalogue(), ExampleRatings(), "A", 0.0, 100.0);
    TwoLevels(ExampleCatalogue(), ExampleRatings(), "B", 100.0, 0.0);
  }

  lemma TwoLevels(df: seq<Row>, ratings: Ratings, serie: string, c1: real, c3: real)
    requires RatedAt(ratings, 1) != {} && RatedAt(ratings, 3) != {}
    requires Coverage(df, ratings, serie, 1) == c1 && Coverage(df, ratings, serie, 3) == c3
    ensures LevelCoverage(df, ratings, serie, {1, 3}) == map[1 := c1, 3 := c3]
  {
    var a := LevelCoverage(df, ratings, serie, {1, 3});
    var m := map[1 := c1, 3 := c3];
    forall level ensures level in a <==> level in m {
    }
    forall level | level in a ensures a[level] == m[level] {
    }
  }

  lemma ExampleScores()
    ensures "A" in CoverageData(ExampleCatalogue(), ExampleRatings())
    ensures "B" in CoverageData(ExampleCatalogue(), ExampleRatings())
    ensures Score(CoverageData(ExampleCatalogue(), ExampleRatings())["A"]) == 500.0
    ensures Score(CoverageData(ExampleCatalogue(), ExampleRatings())["B"]) == 100.0
  {
    ExampleScoreA();
    ExampleScoreB();
  }

  lemma ExampleScoreA()
    ensures "A" in CoverageData(ExampleCatalogue(), ExampleRatings())
    ensures Score(CoverageData(ExampleCatalogue(), ExampleRatings())["A"]) == 500.0
  {
    ExampleCoverageData();
    ScoreWithoutLevel2(0.0, 100.0);
  }

  lemma ExampleScoreB()
    ensures "B" in CoverageData(ExampleCatalogue(), ExampleRatings())
    ensures Score(CoverageData(ExampleCatalogue(), ExampleRatings())["B"]) == 100.0
  {
    ExampleCoverageData();
    ScoreWithoutLevel2(100.0, 0.0);
  }

  lemma ScoreWithoutLevel2(c1: real, c3: real)
    ensures Score(map[1 := c1, 3 := c3]) == 5.0 * c3 + c1
  {
    assert 2 !in map[1 := c1, 3 := c3];
  }

  /**
   * P1 rated 3 and P2 rated 1: "A" holds all of level 3 and "B" all of
   * level 1, so "A" scores 500, "B" 100, and "A" ranks first.
   */
  lemma ExampleRanking()
    ensures Ranking(ExampleCatalogue(), ExampleRatings()) == ["A", "B"]
  {
    var df, ratings := ExampleCatalogue(), ExampleRatings();
    ExampleScores();
    ExampleActive();
    ExampleSeries();
    var keys := SeriesKeys(df, ratings);
    assert keys == ["A", "B"];
    var scores := Scores(CoverageData(df, ratings), keys);
    assert "A" in scores && "B" in scores && scores["A"] >= scores["B"];
    RankTwo("A", "B", scores);
  }

  lemma RankTwo<T(!new)>(a: T, b: T, score: map<T, real>)
    requires a in score && b in score && score[a] >= score[b]
    ensures RankByScore([a, b], score) == [a, b]
  {
    assert [a, b][1..] == [b];
    assert RankByScore([b], score) == [b];
  }


}
