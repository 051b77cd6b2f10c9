# Concert selector: filters, coverage ranking and session state

This model covers the core of a Streamlit page. On that page, a signed-in subscriber browses the concert programs of an orchestra season and rates each program from 0 to 3. The page then shows how the subscriber's rated programs spread over the subscription series. The model covers:

- **Month labels.** `abv_month` and `num_month` convert between month numbers and the three-letter Portuguese labels the month selector shows. Python's negative list indexing and the `ValueError` / `IndexError` paths are included.
- **The filter resolver.** `get_available_options` applies the non-empty selections (AND across columns, OR within one column). It returns the filtered rows with the option lists:
  - months, weekdays and series of the whole catalogue;
  - composers of the filtered rows only.

  The model also covers the three places that call it: the sidebar defaults, the composer widget and the main filter.
- **The coverage analysis.** For each rating level 1 to 3 that has rated programs, it computes the share of those programs held by each series. It then computes a weighted priority score per series, with level 3 weighing 5, level 2 weighing 3 and level 1 weighing 1. The series are ranked by descending score with a stable sort. Each series' weekdays are listed by frequency.
- **The session state.** This is a class holding:
  - the login fields;
  - the rating map;
  - the four filter selections;
  - the rating widgets;
  - the reset-confirmation flag and the current page.

  Its methods are the page's updates: clearing the filters, merging a saved ratings file (on the button and automatically once per login), creating the rating radios and writing them back, the confirmed full reset that keeps the login, and sign-out.

Modules:
- `Wrappers`: `Option` and `GetOr`.
- `Sequences`: `list.index`, `dropna`, Python's order on ints and strings, `sorted(set(...))`, and the stable descending sort.
- `Months`
- `Catalogue`: the rows and the column value lists.
- `FilterResolver`
- `CoverageScorer`
- `Session`

Catalogue columns may hold nulls, so they are `Option`s. A null never matches a selection and is dropped from every value list; in the month column a null can also break the month labels, depending on how the column is stored (see "Left out").

## Model

| member | source | states |
|---|---|---|
| Months.AbvMonth | app_concert_v5.py:101-104 | defined exactly for -11..12: months 1..12 give their label, and -11..0 wrap around to the end of the list (Python negative index); any other month fails |
| Months.NumMonth | app_concert_v5.py:106-109 | defined exactly for the twelve labels, giving the month 1..12 whose label it is; otherwise fails (ValueError) |
| Months.ShortNamesAreAbbreviations | app_concert_v5.py:102-109 | the first three letters of each month name are the twelve labels Jan..Dez |
| Months.AbbreviationsDistinct | app_concert_v5.py:109 | no two months share a label, so `index` finds the month itself |
| Months.NumMonthOfAbvMonth | app_concert_v5.py:101-109 | num_month(abv_month(m)) == m for every month 1..12 |
| Months.AbvMonthOfNumMonth | app_concert_v5.py:101-109 | abv_month(num_month(l)) == l for every label |
| Months.MonthLabels | app_concert_v5.py:174 | the label list exists exactly when every month is in -11..12; position by position, each label is that month's abv_month |
| Months.MonthNumbers | app_concert_v5.py:238 | the month list exists exactly when every label is one of the twelve; position by position, each number is that label's num_month |
| Months.MonthNumbersOfLabels | app_concert_v5.py:174 | converting catalogue months to labels and the selected labels back gives the months themselves |
| Sequences.IndexOf | app_concert_v5.py:109 | `list.index`: None exactly when absent; otherwise the first position holding the value |
| Sequences.Present | app_concert_v5.py:123-126 | `dropna`: exactly the present values |
| Sequences.PresentMultiplicity | app_concert_v5.py:393 | `dropna` keeps each present value as often as the column holds it |
| Sequences.SortedDistinct | app_concert_v5.py:123-126 | `sorted(unique)` holds exactly the input's values |
| Sequences.SortedDistinctIncreasing | app_concert_v5.py:123-126 | for a strict total order, the result is strictly increasing and so free of repeats |
| Sequences.IncreasingUnique | app_concert_v5.py:123-126 | two strictly increasing lists with the same elements are equal, so any correct sort gives this list |
| Sequences.StrLessIsStrictTotalOrder | app_concert_v5.py:123-126 | Python's string order (lexicographic, prefix first) is a strict total order |
| Sequences.RankByScore | app_concert_v5.py:390 | the ranking is a permutation of its input |
| Sequences.RankByScoreMembers | app_concert_v5.py:390 | the ranking holds exactly the input's elements |
| Sequences.RankByScoreRanked | app_concert_v5.py:390 | scores never increase along the ranking, and equal scores keep their input order (a stable `sorted(reverse=True)`) |
| Catalogue.MonthValues | app_concert_v5.py:123 | holds exactly the months some row carries |
| Catalogue.WeekdayValues | app_concert_v5.py:124 | holds exactly the weekdays some row carries |
| Catalogue.SeriesValues | app_concert_v5.py:125 | holds exactly the series some row carries |
| Catalogue.ComposerValues | app_concert_v5.py:126 | holds exactly the composers some row carries |
| Catalogue.ValueListsIncreasing | app_concert_v5.py:122-127 | every option list is in strictly ascending Python order without repeats |
| FilterResolver.FilterRows | app_concert_v5.py:113-118 | the rows passing every non-empty selection, in catalogue order; stated by `FilterRowsMembers`, `FilterRowsMultiplicity` and `FilterRowsConcat` |
| FilterResolver.FilterRowsMultiplicity | app_concert_v5.py:113-118 | a matching row is kept as often as the catalogue holds it, any other row not at all |
| FilterResolver.KeepSelected | app_concert_v5.py:118 | one `isin` step; stated by `KeepSelectedMultiplicity` and `SelectStep` |
| FilterResolver.KeepSelectedMultiplicity | app_concert_v5.py:118 | `isin` keeps each selected row as often as it occurs and drops every other row |
| FilterResolver.FilterRowsMembers | app_concert_v5.py:113-118 | a row survives exactly when, for each column with a selection, its value is selected; never more rows than the input |
| FilterResolver.SelectStep | app_concert_v5.py:116-118 | one pass of the loop narrows the subset by that key's selection only when the selection is non-empty |
| FilterResolver.SelectAll | app_concert_v5.py:116-118 | after all four keys the subset is the rows matching every filter |
| FilterResolver.GetAvailableOptions | app_concert_v5.py:111-128 | the subset is the matching rows in catalogue order; month, weekday and series options come from the whole catalogue; composer options are exactly the composers of matching rows |
| FilterResolver.FilterRowsConcat | app_concert_v5.py:113-118 | filtering keeps catalogue order (it distributes over concatenation) |
| FilterResolver.FilterRowsUnrestricted | app_concert_v5.py:117 | with every selection empty, the subset is the whole catalogue |
| FilterResolver.ComposerOptionsIgnoreOwnSelection | app_concert_v5.py:234-240 | with the composer selection forced empty, the composers offered are those of rows passing the series, weekday and month selections |
| FilterResolver.SidebarOptions | app_concert_v5.py:165-174 | month, weekday and series options are the whole catalogue's, whatever is selected; labels exist exactly when every month is in -11..12 |
| FilterResolver.ComposerChoices | app_concert_v5.py:234-243 | choices exist exactly when every month label is known; they are ascending and are exactly the composers of rows matching the other three selections |
| CoverageScorer.RatedPrograms | app_concert_v5.py:362 | the programs with a positive rating; `RatedSplitsIntoLevels` and `CoverageEntries` state what depends on them |
| CoverageScorer.RatedAt | app_concert_v5.py:367 | the programs rated exactly at a level; `RatedSplitsIntoLevels` relates the levels to the rated programs |
| CoverageScorer.RatedSplitsIntoLevels | app_concert_v5.py:362-367 | with every rating within 0..3, the rated programs are the union of the three levels, and no program is at two levels |
| CoverageScorer.ProgramsIn | app_concert_v5.py:370 | the programs of the series; `ProgramsInRowsOfSeries` relates them to the series' rows |
| CoverageScorer.ProgramsInRowsOfSeries | app_concert_v5.py:370 | the programs of a series are exactly the distinct program ids of `df[df["serie"] == serie]` |
| CoverageScorer.Coverage | app_concert_v5.py:367-372 | the share of the programs rated at a level that belong to the series, between 0 and 100 |
| CoverageScorer.CoverageData | app_concert_v5.py:365-373 | the filled `coverage_data`; `FillCoverage` proves the loops compute it and `CoverageEntries` states its keys and bounds |
| CoverageScorer.FillCoverage | app_concert_v5.py:364-373 | the filled `coverage_data` equals its definition: for each active level, every catalogue series gets its coverage; keys are inserted in series order |
| CoverageScorer.ScoreSeries | app_concert_v5.py:379-387 | every key gets 5 x level-3 + 3 x level-2 + 1 x level-1 coverage, with a missing level counting 0 |
| CoverageScorer.AnalyseCoverage | app_concert_v5.py:362-390 | no analysis exactly when no program has a positive rating; otherwise the coverage data and the series ranked by score |
| CoverageScorer.CoverageEntries | app_concert_v5.py:362-373 | entries exist only with a positive rating; a series has an entry exactly when it is in the catalogue; a level has one exactly when some program is rated at it; every value is within 0..100 |
| CoverageScorer.Score | app_concert_v5.py:382-386 | the weighted priority score; `ScoreBounds` bounds it and `ScoreSeries` proves the loop computes it |
| CoverageScorer.ScoreBounds | app_concert_v5.py:382-386 | a score lies within 0..900 |
| CoverageScorer.Ranking | app_concert_v5.py:390 | `series_names`; `RankingOrdered` states its order |
| CoverageScorer.RankingOrdered | app_concert_v5.py:390 | the ranking is a permutation of the keys with no repeats; scores never increase along it; ties stay in alphabetical order |
| CoverageScorer.RowsOfSeries | app_concert_v5.py:393 | exactly the catalogue rows of the series, each as often as the catalogue holds it |
| CoverageScorer.DayCountsAreMultiplicities | app_concert_v5.py:393 | `value_counts` on the weekday column: its keys are exactly the non-null weekdays, each counted as often as the column holds it, so every count is at least 1 |
| CoverageScorer.WeekdayMix | app_concert_v5.py:393 | the series' weekdays by frequency; `WeekdayMixOrdered` states it |
| CoverageScorer.WeekdayMixOrdered | app_concert_v5.py:392-394 | a series' weekday list holds each weekday of its rows once, and counts never increase along it |
| CoverageScorer.SumCoverageCounts | app_concert_v5.py:369-372 | when each program rated at the level sits in one series, the coverages summed over distinct series are the share of rated programs lying in any of them |
| CoverageScorer.CoverageSumsTo100 | app_concert_v5.py:366-373 | the coverages of one level sum to 100 across all series, provided every program rated at that level appears in the catalogue under exactly one series (unrated programs may sit in several) |
| CoverageScorer.ExampleRanking | app_concert_v5.py:362-390 | P1 rated 3 in series A and P2 rated 1 in series B: A scores 500, B scores 100, and A ranks first |
| CoverageScorer.ExampleScores | app_concert_v5.py:379-387 | in that example the scores are 500 and 100 |
| Session.Merged | app_concert_v5.py:202-203 | the ratings after the file's rows are applied in order; `MergedKeys`, `MergedKeepsOthers` and `MergedTakesLast` state it |
| Session.MergedKeys | app_concert_v5.py:202-203 | loading adds exactly the program ids the file names to the rating map |
| Session.MergedKeepsOthers | app_concert_v5.py:202-203 | a program the file does not name keeps its in-memory rating |
| Session.MergedTakesLast | app_concert_v5.py:213-214 | a named program ends with the rating on the file's last row for it |
| Session.MergedInRange | app_concert_v5.py:213-214 | loading a file whose ratings are 0..3 keeps every rating within 0..3 |
| Session.SessionState.constructor | app_concert_v5.py:46-48 | right after login: signed in with the given email and name, no ratings, empty selections, the programs page |
| Session.SessionState.CurrentFilters | app_concert_v5.py:302-307 | the filter dictionary exists exactly when every month label is known; it holds the selections and the month numbers of the labels |
| Session.SessionState.ClearAllFilters | app_concert_v5.py:131-136 | the four selections become empty (the filters then restrict nothing); ratings, login and everything else are unchanged |
| Session.SessionState.MergeSaved | app_concert_v5.py:202-203 | the ratings become the old ratings with the file applied row by row; nothing else changes |
| Session.SessionState.LoadSavedRatings | app_concert_v5.py:198-206 | merges the file when it exists; otherwise nothing changes |
| Session.SessionState.AutoLoad | app_concert_v5.py:209-215 | merges the file only on the first render after login, then marks the ratings loaded |
| Session.SessionState.SetRatingWidget | app_concert_v5.py:352-354 | the user picks 0..3 on a radio the last render showed; nothing else changes |
| Session.SessionState.RenderRatingWidgets | app_concert_v5.py:351-354 | one radio per shown program and no other: an existing radio keeps its value, a new one starts at the program's current rating (0 when unrated); the ratings are unchanged |
| Session.SessionState.RenderAnalysisPage | app_concert_v5.py:358-396 | the analysis page renders no radio, so every radio loses its value while the ratings stay |
| Session.SessionState.RateShownPrograms | app_concert_v5.py:340-356 | a shown program takes the value picked on its radio; an untouched one keeps its rating (0 when it had none); programs not shown keep theirs; afterwards every shown radio equals its rating |
| Session.SessionState.WriteBackRatings | app_concert_v5.py:355-356 | every shown program takes its widget's value (the `.get` fallback 0 without one), other ratings are unchanged, and ratings stay within 0..3 |
| Session.SessionState.RequestReset | app_concert_v5.py:264-265 | raises the confirmation flag only |
| Session.SessionState.CancelReset | app_concert_v5.py:292-293 | lowers the confirmation flag only |
| Session.SessionState.ConfirmReset | app_concert_v5.py:272-287 | ratings emptied and marked loaded; selections, widgets and flag cleared; login, email and name kept |
| Session.SessionState.Logout | app_concert_v5.py:219-221 | everything cleared, login included |
| Session.SessionState.ShowPage | app_concert_v5.py:250-254 | switches the page only |
| Session.ResetKeepsLogin | app_concert_v5.py:209-290 | after a login, a load, a rating and a confirmed reset, the user is still signed in, and the next automatic load leaves the ratings empty |
| Session.LoadThenShowKeepsRating | app_concert_v5.py:209-356 | a rating loaded from the file is written back unchanged when its program is shown and not touched |
| Session.RatingSurvivesAnalysis | app_concert_v5.py:317-358 | for any program, a rating picked on the programs page is still there after the analysis page has discarded the radios and the programs page has re-created them |

## Left out

- Reading the catalogue, the users file and the ratings files, and writing the ratings file: the loaders are not part of this model. A saved file is a parameter (`Option` for "exists").
- Registration and password checking (lines 17-71) and all rendering are outside this model. Rendering covers CSS, dividers, program cards, captions and the Plotly chart (lines 396 onward).
- The program cards' grouping (`groupby` on program, work order, title and composer) is left out. `RenderRatingWidgets`, `WriteBackRatings` and `RateShownPrograms` take the shown program ids as a list, in display order.
- `confirm_reset` (lines 143-148) is left out, because no widget calls it. The reset the page performs is the inline one at lines 272-290, modelled by `ConfirmReset`. `reset_full_session` (lines 138-141) sets the same flag as the inline button at lines 264-265 (`RequestReset`).
- `st.rerun`, `st.stop`, success and warning messages and balloons are left out. Streamlit's re-execution is modelled by the state each method leaves for the next render.
- Session.SessionState.ConfirmReset: the dictionary is cleared, and the next render re-creates the empty selections and the programs page (lines 160-162 and 313-314). The model returns that post-render state in one step. The widget keys disappear with the clear, and the model empties `ratingWidgets`.
- Session.SessionState.MergeSaved: `int(r["rating"])` is applied to values that are already integers. The CSV parsing, including how pandas types the `index` column, is left out.
- CoverageScorer.Coverage: exact reals stand in for Python floats, so rounding is not modelled.
- FilterResolver.SidebarOptions: the catalogue's storage types are not modelled. If the month column holds a null and is stored as float, the months come back as floats after `dropna`. `abv_month` (line 104, called at line 174) then indexes the list with a float and raises on every render. The model drops the null and returns the labels.
- CoverageScorer.WeekdayMix: `value_counts` leaves the order of equally frequent weekdays to pandas. The model breaks such ties alphabetically. `WeekdayMixOrdered` states only the frequency order.
- CoverageScorer.AnalyseCoverage: the per-series weekday lists and the axis labels built from them (lines 391-396) are not fields of the result. Each is `WeekdayMix(df, serie)` for a series of the ranking.
- CoverageScorer.CoverageSumsTo100: the coverages of a level sum to 100 only under the stated requirements. The code does not guarantee them: a rated id missing from the catalogue, or a rated program listed in two series, breaks the sum.
- Session.SessionState.RenderRatingWidgets: a stored rating outside 0..3 makes `st.radio` reject `index=current_rating`; the model seeds the radio with it regardless.
- Session.SessionState.RenderRatingWidgets: a radio is identified by its key alone, so an existing radio keeps its value even when its `index` argument changed since the last render (after a load, say). Streamlit releases that also fold `index` into a keyed widget's identity would re-create such a radio at the new rating.
- Ratings above 3, which a saved file may carry, count as rated (line 362) but fall into no level. The analysis then exists with no coverage entries, as in the code.
- Line 169 reads `month_sel`, a key nothing writes, so the first options call never filters by month. Only its month, weekday and series lists are used, and those ignore the filters, so `SidebarOptions` passes an empty month selection.
