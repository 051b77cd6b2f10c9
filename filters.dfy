/**
 * The filter resolver, `get_available_options`: the rows that pass the
 * selected filters, and the values each filter widget offers. Month, weekday
 * and series always offer every catalogue value, so an option never vanishes
 * while the user filters; the composer widget offers only the composers of
 * the filtered rows.
 */
module FilterResolver {
  import opened Wrappers
  import opened Sequences
  import opened Catalogue
  import Months

  /** One selection list per filter column; an empty list restricts nothing. */
  datatype Filters = Filters(
    serie: seq<string>,
    compositor: seq<string>,
    diaSemana: seq<string>,
    mes: seq<int>)

  /** The option lists returned beside the subset. */
  datatype Options = Options(
    mes: seq<int>,
    diaSemana: seq<string>,
    serie: seq<string>,
    compositor: seq<string>)

  datatype Dimension = Serie | Compositor | DiaSemana | Mes

  /** The key order of every filter dictionary the page builds. */
  const FilterKeys: seq<Dimension> := [Serie, Compositor, DiaSemana, Mes]

  /** `if selected:`: the selection list is not empty. */
  predicate HasSelection(f: Filters, d: Dimension)
  {
    match d
    case Serie => f.serie != []
    case Compositor => f.compositor != []
    case DiaSemana => f.diaSemana != []
    case Mes => f.mes != []
  }

  /** `row[col] in selected`; a null is in no selection. */
  predicate InSelection(f: Filters, d: Dimension, row: Row)
  {
    match d
    case Serie => row.serie.Some? && row.serie.value in f.serie
    case Compositor => row.compositor.Some? && row.compositor.value in f.compositor
    case DiaSemana => row.diaSemana.Some? && row.diaSemana.value in f.diaSemana
    case Mes => row.mes.Some? && row.mes.value in f.mes
  }

  /** The row passes dimension `d`: nothing is selected there, or its value is. */
  predicate Admits(f: Filters, d: Dimension, row: Row)
  {
    !HasSelection(f, d) || InSelection(f, d, row)
  }

  /** AND across the dimensions, OR among one dimension's selected values. */
  predicate Matches(f: Filters, row: Row)
  {
    Admits(f, Serie, row) && Admits(f, Compositor, row) && Admits(f, DiaSemana, row) && Admits(f, Mes, row)
  }

  /** The rows that match, in catalogue order. */
  function FilterRows(rows: seq<Row>, f: Filters): seq<Row>
  {
    if rows == [] then []
    else (if Matches(f, rows[0]) then [rows[0]] else []) + FilterRows(rows[1..], f)
  }

  /** Filtering keeps each matching row as often as the catalogue holds it. */
  lemma {:induction false} FilterRowsMultiplicity(rows: seq<Row>, f: Filters, row: Row)
    ensures multiset(FilterRows(rows, f))[row] == if Matches(f, row) then multiset(rows)[row] else 0
  {
    if rows != [] {
      FilterRowsMultiplicity(rows[1..], f, row);
      assert rows == [rows[0]] + rows[1..];
    }
  }

  /** A row survives exactly when it matches; filtering never adds rows. */
  lemma {:induction false} FilterRowsMembers(rows: seq<Row>, f: Filters)
    ensures forall row :: row in FilterRows(rows, f) <==> row in rows && Matches(f, row)
    ensures |FilterRows(rows, f)| <= |rows|
  {
    if rows != [] {
      FilterRowsMembers(rows[1..], f);
      assert forall row :: row in rows <==> row == rows[0] || row in rows[1..];
    }
  }

  /** `subset[subset[col].isin(selected)]`. */
  function KeepSelected(rows: seq<Row>, f: Filters, d: Dimension): seq<Row>
  {
    if rows == [] then []
    else (if InSelection(f, d, rows[0]) then [rows[0]] else []) + KeepSelected(rows[1..], f, d)
  }

  /** `isin` keeps each selected row as often as it occurs and drops the others. */
  lemma {:induction false} KeepSelectedMultiplicity(rows: seq<Row>, f: Filters, d: Dimension, row: Row)
    ensures multiset(KeepSelected(rows, f, d))[row] == if InSelection(f, d, row) then multiset(rows)[row] else 0
  {
    if rows != [] {
      KeepSelectedMultiplicity(rows[1..], f, d, row);
      assert rows == [rows[0]] + rows[1..];
    }
  }

  /** The row passes the first `k` keys of the filter dictionary. */
  predicate AdmitsFirst(f: Filters, k: nat, row: Row)
    requires k <= |FilterKeys|
  {
    forall i :: 0 <= i < k ==> Admits(f, FilterKeys[i], row)
  }

  /** `subset` after the loop has handled the first `k` keys. */
  function SelectFirst(rows: seq<Row>, f: Filters, k: nat): seq<Row>
    requires k <= |FilterKeys|
  {
    if rows == [] then []
    else (if AdmitsFirst(f, k, rows[0]) then [rows[0]] else []) + SelectFirst(rows[1..], f, k)
  }

  lemma {:induction false} SelectNone(rows: seq<Row>, f: Filters)
    ensures SelectFirst(rows, f, 0) == rows
  {
    if rows != [] {
      SelectNone(rows[1..], f);
      assert rows == [rows[0]] + rows[1..];
    }
  }

  lemma AdmitsFirstStep(f: Filters, k: nat, row: Row)
    requires k < |FilterKeys|
    ensures AdmitsFirst(f, k + 1, row) <==> AdmitsFirst(f, k, row) && Admits(f, FilterKeys[k], row)
  {
  }

  lemma {:induction false} SelectStep(rows: seq<Row>, f: Filters, k: nat)
    requires k < |FilterKeys|
    ensures SelectFirst(rows, f, k + 1) ==
      if HasSelection(f, FilterKeys[k]) then KeepSelected(SelectFirst(rows, f, k), f, FilterKeys[k])
      else SelectFirst(rows, f, k)
  {
    if rows != [] {
      SelectStep(rows[1..], f, k);
      var row, d := rows[0], FilterKeys[k];
      AdmitsFirstStep(f, k, row);
      var s, t := SelectFirst(rows, f, k), SelectFirst(rows[1..], f, k);
      if AdmitsFirst(f, k, row) {
        assert s == [row] + t;
        assert s[1..] == t;
        assert KeepSelected(s, f, d) == (if InSelection(f, d, row) then [row] else []) + KeepSelected(t, f, d);
      } else {
        assert s == t;
      }
    }
  }

  lemma {:induction false} SelectAll(rows: seq<Row>, f: Filters)
    ensures SelectFirst(rows, f, |FilterKeys|) == FilterRows(rows, f)
  {
    if rows != [] {
      SelectAll(rows[1..], f);
      var row := rows[0];
      assert AdmitsFirst(f, |FilterKeys|, row) <==> Matches(f, row) by {
        assert FilterKeys[0] == Serie && FilterKeys[1] == Compositor;
        assert FilterKeys[2] == DiaSemana && FilterKeys[3] == Mes;
      }
    }
  }

  /**
   * `get_available_options(df, current_filters)`: applies each non-empty
   * selection in turn, then lists month, weekday and series values of the
   * whole catalogue and composer values of the subset.
   */
  method GetAvailableOptions(df: seq<Row>, f: Filters) returns (subset: seq<Row>, options: Options)
    ensures subset == FilterRows(df, f)
    ensures forall row :: row in subset <==> row in df && Matches(f, row)
    ensures options.mes == MonthValues(df) && options.diaSemana == WeekdayValues(df)
    ensures options.serie == SeriesValues(df) && options.compositor == ComposerValues(subset)
    ensures forall c :: c in options.compositor <==>
      exists row :: row in df && Matches(f, row) && row.compositor == Some(c)
  {
    subset := df;
    SelectNone(df, f);
    for k := 0 to |FilterKeys|
      invariant subset == SelectFirst(df, f, k)
    {
      SelectStep(df, f, k);
      var col := FilterKeys[k];
      if HasSelection(f, col) {
        subset := KeepSelected(subset, f, col);
      }
    }
    SelectAll(df, f);
    FilterRowsMembers(df, f);
    options := Options(MonthValues(df), WeekdayValues(df), SeriesValues(df), ComposerValues(subset));
  }

  /** Filtering keeps the catalogue order: it commutes with concatenation. */
  lemma {:induction false} FilterRowsConcat(a: seq<Row>, b: seq<Row>, f: Filters)
    ensures FilterRows(a + b, f) == FilterRows(a, f) + FilterRows(b, f)
  {
    if a != [] {
      FilterRowsConcat(a[1..], b, f);
      var head := if Matches(f, a[0]) then [a[0]] else [];
      assert (a + b)[0] == a[0] && (a + b)[1..] == a[1..] + b;
      calc {
        FilterRows(a + b, f);
        head + FilterRows(a[1..] + b, f);
        head + (FilterRows(a[1..], f) + FilterRows(b, f));
        (head + FilterRows(a[1..], f)) + FilterRows(b, f);
      }
    } else {
      assert a + b == b;
    }
  }

  /** With every selection empty, nothing is filtered out. */
  lemma {:induction false} FilterRowsUnrestricted(rows: seq<Row>, f: Filters)
    requires f.serie == [] && f.compositor == [] && f.diaSemana == [] && f.mes == []
    ensures FilterRows(rows, f) == rows
  {
    if rows != [] {
      FilterRowsUnrestricted(rows[1..], f);
      assert rows == [rows[0]] + rows[1..];
    }
  }

  /**
   * With the composer selection forced empty (the call that fills the
   * composer widget), the composers offered are those of the rows passing
   * the series, weekday and month selections: a composer's own selection
   * never narrows the list.
   */
  lemma ComposerOptionsIgnoreOwnSelection(df: seq<Row>, f: Filters)
    requires f.compositor == []
    ensures forall c :: c in ComposerValues(FilterRows(df, f)) <==>
      exists row :: row in df && row.compositor == Some(c)
        && Admits(f, Serie, row) && Admits(f, DiaSemana, row) && Admits(f, Mes, row)
  {
    FilterRowsMembers(df, f);
  }

  /**
   * Lines 165-174: the first call reads the month selection from a key
   * nothing writes (so it is empty) and keeps only the three lists that do
   * not depend on the filters, then turns the months into labels.
   */
  method SidebarOptions(df: seq<Row>, seriesSel: seq<string>, composersSel: seq<string>, weekdaySel: seq<string>)
    returns (options: Options, monthLabels: Option<seq<string>>)
    ensures options.mes == MonthValues(df) && options.diaSemana == WeekdayValues(df)
    ensures options.serie == SeriesValues(df)
    ensures monthLabels.Some? <==> forall i :: 0 <= i < |options.mes| ==> -11 <= options.mes[i] <= 12
    ensures monthLabels == Months.MonthLabels(options.mes)
  {
    var unwrittenMonthSel: seq<int> := [];
    var _, opts := GetAvailableOptions(df, Filters(seriesSel, composersSel, weekdaySel, unwrittenMonthSel));
    options := opts;
    monthLabels := Months.MonthLabels(options.mes);
  }

  /**
   * Lines 234-243: the composer widget's choices, from the current series,
   * weekday and month-label selections with the composer selection forced
   * empty. None where a label is unknown and `num_month` raises.
   */
  method ComposerChoices(df: seq<Row>, seriesSel: seq<string>, weekdaySel: seq<string>, monthLabels: seq<string>)
    returns (choices: Option<seq<string>>)
    ensures choices.Some? <==> forall i :: 0 <= i < |monthLabels| ==> monthLabels[i] in Months.Abbreviations
    ensures choices.Some? ==> Increasing(choices.value, StrLess)
    ensures choices.Some? ==> forall c :: c in choices.value <==>
      exists row :: row in df && row.compositor == Some(c)
        && Matches(Filters(seriesSel, [], weekdaySel, Months.MonthNumbers(monthLabels).value), row)
  {
    var numbers := Months.MonthNumbers(monthLabels);
    if numbers.None? {
      choices := None;
    } else {
      var f := Filters(seriesSel, [], weekdaySel, numbers.value);
      var subset, options := GetAvailableOptions(df, f);
      StringValuesIncreasing(ComposerColumn(subset));
      choices := Some(options.compositor);
    }
  }
}
