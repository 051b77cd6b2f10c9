/**
 * The concert catalogue as the page reads it: one row per performed work,
 * reduced to the columns the filters and the coverage analysis use. Every
 * column may hold nulls; pandas drops them before listing values, and a null
 * never matches a selection.
 */
module Catalogue {
  import opened Wrappers
  import opened Sequences

  /** `program_id`: opaque, repeated on every row of the program. */
  type ProgramId = string

  datatype Row = Row(
    programId: ProgramId,
    serie: Option<string>,
    compositor: Option<string>,
    diaSemana: Option<string>,
    mes: Option<int>)

  function MonthColumn(rows: seq<Row>): seq<Option<int>>
  {
    seq(|rows|, i requires 0 <= i < |rows| => rows[i].mes)
  }

  function WeekdayColumn(rows: seq<Row>): seq<Option<string>>
  {
    seq(|rows|, i requires 0 <= i < |rows| => rows[i].diaSemana)
  }

  function SeriesColumn(rows: seq<Row>): seq<Option<string>>
  {
    seq(|rows|, i requires 0 <= i < |rows| => rows[i].serie)
  }

  function ComposerColumn(rows: seq<Row>): seq<Option<string>>
  {
    seq(|rows|, i requires 0 <= i < |rows| => rows[i].compositor)
  }

  /** `sorted(rows["mês"].dropna().unique())`: every month some row carries. */
  function MonthValues(rows: seq<Row>): (r: seq<int>)
    ensures forall m :: m in r <==> exists row :: row in rows && row.mes == Some(m)
  {
    var column := MonthColumn(rows);
    assert forall m :: Some(m) in column <==> exists row :: row in rows && row.mes == Some(m) by {
      forall m ensures Some(m) in column <==> exists row :: row in rows && row.mes == Some(m) {
        if Some(m) in column {
          var i :| 0 <= i < |column| && column[i] == Some(m);
          assert rows[i] in rows;
        }
        if exists row :: row in rows && row.mes == Some(m) {
          var row :| row in rows && row.mes == Some(m);
          var i :| 0 <= i < |rows| && rows[i] == row;
          assert column[i] == Some(m);
        }
      }
    }
    SortedDistinct(Present(column), IntLess)
  }

  /** `sorted(rows["dia_semana"].dropna().unique())`. */
  function WeekdayValues(rows: seq<Row>): (r: seq<string>)
    ensures forall w :: w in r <==> exists row :: row in rows && row.diaSemana == Some(w)
  {
    var column := WeekdayColumn(rows);
    assert forall w :: Some(w) in column <==> exists row :: row in rows && row.diaSemana == Some(w) by {
      forall w ensures Some(w) in column <==> exists row :: row in rows && row.diaSemana == Some(w) {
        if Some(w) in column {
          var i :| 0 <= i < |column| && column[i] == Some(w);
          assert rows[i] in rows;
        }
        if exists row :: row in rows && row.diaSemana == Some(w) {
          var row :| row in rows && row.diaSemana == Some(w);
          var i :| 0 <= i < |rows| && rows[i] == row;
          assert column[i] == Some(w);
        }
      }
    }
    SortedDistinct(Present(column), StrLess)
  }

  /** `sorted(rows["serie"].dropna().unique())`. */
  function SeriesValues(rows: seq<Row>): (r: seq<string>)
    ensures forall s :: s in r <==> exists row :: row in rows && row.serie == Some(s)
  {
    var column := SeriesColumn(rows);
    assert forall s :: Some(s) in column <==> exists row :: row in rows && row.serie == Some(s) by {
      forall s ensures Some(s) in column <==> exists row :: row in rows && row.serie == Some(s) {
        if Some(s) in column {
          var i :| 0 <= i < |column| && column[i] == Some(s);
          assert rows[i] in rows;
        }
        if exists row :: row in rows && row.serie == Some(s) {
          var row :| row in rows && row.serie == Some(s);
          var i :| 0 <= i < |rows| && rows[i] == row;
          assert column[i] == Some(s);
        }
      }
    }
    SortedDistinct(Present(column), StrLess)
  }

  /** `sorted(rows["compositor"].dropna().unique())`. */
  function ComposerValues(rows: seq<Row>): (r: seq<string>)
    ensures forall c :: c in r <==> exists row :: row in rows && row.compositor == Some(c)
  {
    var column := ComposerColumn(rows);
    assert forall c :: Some(c) in column <==> exists row :: row in rows && row.compositor == Some(c) by {
      forall c ensures Some(c) in column <==> exists row :: row in rows && row.compositor == Some(c) {
        if Some(c) in column {
          var i :| 0 <= i < |column| && column[i] == Some(c);
          assert rows[i] in rows;
        }
        if exists row :: row in rows && row.compositor == Some(c) {
          var row :| row in rows && row.compositor == Some(c);
          var i :| 0 <= i < |rows| && rows[i] == row;
          assert column[i] == Some(c);
        }
      }
    }
    SortedDistinct(Present(column), StrLess)
  }

  /**
   * Each value list is in ascending order without repeats (Python's order on
   * ints and on strings), hence exactly what `sorted(... .unique())` returns.
   */
  lemma ValueListsIncreasing(rows: seq<Row>)
    ensures Increasing(MonthValues(rows), IntLess) && Distinct(MonthValues(rows))
    ensures Increasing(WeekdayValues(rows), StrLess) && Distinct(WeekdayValues(rows))
    ensures Increasing(SeriesValues(rows), StrLess) && Distinct(SeriesValues(rows))
    ensures Increasing(ComposerValues(rows), StrLess) && Distinct(ComposerValues(rows))
  {
    IntLessIsStrictTotalOrder();
    SortedDistinctIncreasing(Present(MonthColumn(rows)), IntLess);
    StringValuesIncreasing(WeekdayColumn(rows));
    StringValuesIncreasing(SeriesColumn(rows));
    StringValuesIncreasing(ComposerColumn(rows));
  }

  lemma StringValuesIncreasing(column: seq<Option<string>>)
    ensures Increasing(SortedDistinct(Present(column), StrLess), StrLess)
    ensures Distinct(SortedDistinct(Present(column), StrLess))
  {
    StrLessIsStrictTotalOrder();
    SortedDistinctIncreasing(Present(column), StrLess);
  }
}
