/**
 * Month labels: the page shows months as three-letter Portuguese
 * abbreviations and filters the catalogue by month number.
 */
module Months {
  import opened Wrappers
  import opened Sequences

  const MonthNames: seq<string> :=
    ["Janeiro", "Fevereiro", "Março", "Abril", "Maio", "Junho", "Julho", "Agosto", "Setembro",
     "Outubro", "Novembro", "Dezembro"]

  /** The labels the month selector shows, January first. */
  const Abbreviations: seq<string> :=
    ["Jan", "Fev", "Mar", "Abr", "Mai", "Jun", "Jul", "Ago", "Set", "Out", "Nov", "Dez"]

  /** Python's `name[:3]`. */
  function Prefix3(name: string): string
  {
    if |name| <= 3 then name else name[..3]
  }

  /** `[x[0:3] for x in meses]`. */
  function ShortNames(): seq<string>
  {
    seq(|MonthNames|, i requires 0 <= i < |MonthNames| => Prefix3(MonthNames[i]))
  }

  lemma ShortNamesAreAbbreviations()
    ensures ShortNames() == Abbreviations
  {
    var s := ShortNames();
    assert s[0] == "Jan" && s[1] == "Fev" && s[2] == "Mar" && s[3] == "Abr";
    assert s[4] == "Mai" && s[5] == "Jun" && s[6] == "Jul" && s[7] == "Ago";
    assert s[8] == "Set" && s[9] == "Out" && s[10] == "Nov" && s[11] == "Dez";
  }

  /**
   * `abv_month(mes)`: `meses[mes-1][:3]`. Python indexing lets `mes - 1` run
   * from -12 to 11, a negative index counting from the end of the list, so
   * 0 gives "Dez"; any other month raises IndexError (None here).
   */
  function AbvMonth(m: int): (r: Option<string>)
    ensures r.Some? <==> -11 <= m <= 12
    ensures 1 <= m <= 12 ==> r == Some(Abbreviations[m - 1])
    ensures -11 <= m <= 0 ==> r == Some(Abbreviations[m + 11])
  {
    ShortNamesAreAbbreviations();
    var names := ShortNames();
    var i := m - 1;
    if 0 <= i < |names| then Some(names[i])
    else if -|names| <= i < 0 then Some(names[i + |names|])
    else None
  }

  /**
   * `num_month(abv)`: one more than the position of `abv` among the
   * abbreviations, or None where `list.index` raises ValueError.
   */
  function NumMonth(abv: string): (r: Option<int>)
    ensures r.Some? <==> abv in Abbreviations
    ensures r.Some? ==> 1 <= r.value <= 12 && Abbreviations[r.value - 1] == abv
  {
    ShortNamesAreAbbreviations();
    match IndexOf(ShortNames(), abv)
    case None => None
    case Some(i) => Some(i + 1)
  }

  /** No two months share a label. */
  lemma AbbreviationsDistinct()
    ensures Distinct(Abbreviations)
  {
    forall i, j | 0 <= i < j < |Abbreviations| ensures Abbreviations[i] != Abbreviations[j] {
      var a, b := Abbreviations[i], Abbreviations[j];
      assert a[0] != b[0] || a[1] != b[1] || a[2] != b[2];
    }
  }

  /** Every month number survives the trip through its label. */
  lemma NumMonthOfAbvMonth(m: int)
    requires 1 <= m <= 12
    ensures AbvMonth(m).Some? && NumMonth(AbvMonth(m).value) == Some(m)
  {
    AbbreviationsDistinct();
    var k := NumMonth(Abbreviations[m - 1]).value;
    assert Abbreviations[k - 1] == Abbreviations[m - 1];
  }

  /** Every label survives the trip through its month number. */
  lemma AbvMonthOfNumMonth(abv: string)
    requires abv in Abbreviations
    ensures NumMonth(abv).Some? && AbvMonth(NumMonth(abv).value) == Some(abv)
  {
  }

  /** `[abv_month(m) for m in options["mês"]]`: None if any month is out of range. */
  function MonthLabels(ms: seq<int>): (r: Option<seq<string>>)
    ensures r.Some? <==> forall i :: 0 <= i < |ms| ==> -11 <= ms[i] <= 12
    ensures r.Some? ==> LabelsOf(ms, r.value)
  {
    if forall i :: 0 <= i < |ms| ==> AbvMonth(ms[i]).Some? then
      Some(seq(|ms|, i requires 0 <= i < |ms| => AbvMonth(ms[i]).value))
    else None
  }

  /** `labels` holds, position by position, the label of each month. */
  ghost predicate LabelsOf(ms: seq<int>, labels: seq<string>)
  {
    |labels| == |ms| && forall i :: 0 <= i < |ms| ==> AbvMonth(ms[i]) == Some(labels[i])
  }

  /** `[num_month(x) for x in months_sel]`: None if any label is unknown. */
  function MonthNumbers(labels: seq<string>): (r: Option<seq<int>>)
    ensures r.Some? <==> forall i :: 0 <= i < |labels| ==> labels[i] in Abbreviations
    ensures r.Some? ==> NumbersOf(labels, r.value)
  {
    if forall i :: 0 <= i < |labels| ==> NumMonth(labels[i]).Some? then
      Some(seq(|labels|, i requires 0 <= i < |labels| => NumMonth(labels[i]).value))
    else None
  }

  /** `ms` holds, position by position, the month of each label. */
  ghost predicate NumbersOf(labels: seq<string>, ms: seq<int>)
  {
    |ms| == |labels| && forall i :: 0 <= i < |labels| ==> NumMonth(labels[i]) == Some(ms[i])
  }

  /**
   * Selecting labels built from catalogue months and converting them back
   * gives the months themselves.
   */
  lemma MonthNumbersOfLabels(ms: seq<int>)
    requires forall i :: 0 <= i < |ms| ==> 1 <= ms[i] <= 12
    ensures MonthLabels(ms).Some? && MonthNumbers(MonthLabels(ms).value) == Some(ms)
  {
    var labels := MonthLabels(ms).value;
    forall i | 0 <= i < |ms| ensures NumMonth(labels[i]) == Some(ms[i]) {
      NumMonthOfAbvMonth(ms[i]);
    }
    var nums := MonthNumbers(labels).value;
    assert |nums| == |labels| == |ms|;
    assert forall i :: 0 <= i < |ms| ==> nums[i] == ms[i];
    assert nums == ms;
  }
}
