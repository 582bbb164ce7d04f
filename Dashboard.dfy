/** One evaluation of the script after the load: the three metrics, the two
    chart series and the detail table computed over the records the date
    range selected, whichever of the two filters of DateFilter chose them. */
module Dashboard {
  import opened Sales
  import opened DateFilter
  import opened Kpi
  import opened Daily
  import opened Charts

  datatype View = View(
    totalSales: Cents,
    totalOrders: nat,
    topCake: string,
    trend: seq<DailyTotal>,
    bestsellers: seq<NameCount>,
    details: seq<Record>)

  /** The view the script renders for the selected records `sel`. The
      top-cake metric raises on an empty selection, so `sel` must hold some
      record. */
  function Render(sel: seq<Record>): (v: View)
    requires sel != []
    ensures v.totalSales == SumEntries(v.trend)
    ensures Dates(v.trend) == RecordDates(sel)
    ensures 1 <= v.totalOrders <= |v.details| == |sel|
    ensures multiset(v.details) == multiset(sel)
    ensures v.totalOrders == TotalOrders(v.details)
    ensures Occurrences(sel, v.topCake) > 0
    ensures forall n :: Occurrences(sel, n) <= Occurrences(sel, v.topCake)
    ensures |v.bestsellers| > 0 && v.bestsellers[0].name == v.topCake
  {
    TopCakeHeadsChart(sel);
    var details := DetailTable(sel);
    assert |details| == |multiset(details)| == |multiset(sel)| == |sel|;
    OrderNumbersOfPermutation(sel, details);
    View(TotalSales(sel), TotalOrders(sel), TopCake(sel), DailySales(sel), TopCakes(sel), details)
  }

  /** Opening the dashboard on a non-empty data set: the default range
      selects everything by day, so the metrics describe the whole data
      set. */
  lemma DefaultViewCoversAll(rs: seq<Record>)
    requires |rs| > 0
    ensures FilterByDay(rs, DefaultRange(rs)) == rs
    ensures var v := Render(FilterByDay(rs, DefaultRange(rs)));
            && v.totalSales == TotalSales(rs)
            && v.totalOrders == TotalOrders(rs)
            && multiset(v.details) == multiset(rs)
            && Dates(v.trend) == RecordDates(rs)
  {
    DefaultRangeKeepsAll(rs);
  }

  /** The script as written, opened with the default range: when the
      latest order is stamped at midnight it shows the whole data set, the
      same view as the day-based filter. */
  lemma AsWrittenDefaultViewAtMidnight(rs: seq<Record>)
    requires |rs| > 0
    requires MaxDate(rs) % SecondsPerDay == 0
    ensures FilterAsWritten(rs, DefaultRange(rs)) == rs
    ensures Render(FilterAsWritten(rs, DefaultRange(rs))) == Render(FilterByDay(rs, DefaultRange(rs)))
  {
    KeepsAllAtMidnight(rs);
    DefaultRangeKeepsAll(rs);
  }

  /** Three sales over two days, two of them of cake "A". */
  const Day1: Timestamp := 19723 * SecondsPerDay
  const Day2: Timestamp := 19724 * SecondsPerDay
  const ThreeSales: seq<Record> :=
    [Record(Day1, 1, 1000, "A"), Record(Day1, 2, 500, "B"), Record(Day2, 3, 700, "A")]

  lemma ThreeSalesTotals()
    ensures TotalSales(ThreeSales) == 2200
    ensures TotalOrders(ThreeSales) == 3
  {
    var rs := ThreeSales;
    assert rs[1..] == [rs[1], rs[2]] && rs[1..][1..] == [rs[2]] && rs[1..][1..][1..] == [];
    assert TotalSales(rs[1..][1..]) == 700;
    assert TotalSales(rs[1..]) == 1200;
    assert OrderNumbers(rs) == {1, 2, 3} by {
      forall n | n in OrderNumbers(rs) ensures n in {1, 2, 3} {
        var i :| 0 <= i < 3 && rs[i].orderNumber == n;
      }
      assert rs[0].orderNumber == 1 && rs[1].orderNumber == 2 && rs[2].orderNumber == 3;
    }
  }

  lemma ThreeSalesTopCake()
    ensures TopCake(ThreeSales) == "A"
  {
    var rs := ThreeSales;
    var r01, r0 := rs[..2], rs[..1];
    assert r01 == [rs[0], rs[1]] && r01[..1] == r0 && r0[..0] == [];
    var t := TopCake(rs);
    assert Occurrences(r0, t) == (if t == "A" then 1 else 0);
    assert Occurrences(r01, t) == Occurrences(r0, t) + (if t == "B" then 1 else 0);
    assert Occurrences(rs, t) == Occurrences(r01, t) + (if t == "A" then 1 else 0);
    assert Occurrences(r0, "A") == 1;
    assert Occurrences(r01, "A") == 1;
    assert Occurrences(rs, "A") == 2;
  }

  lemma ThreeSalesTrend()
    ensures DailySales(ThreeSales) == [DailyTotal(Day1, 1500), DailyTotal(Day2, 700)]
  {
    var rs := ThreeSales;
    assert rs[1..] == [rs[1], rs[2]] && rs[1..][1..] == [rs[2]] && rs[1..][1..][1..] == [];
    assert DailySales([rs[2]]) == [DailyTotal(Day2, 700)];
    assert DailySales(rs[1..]) == [DailyTotal(Day1, 500), DailyTotal(Day2, 700)];
  }
}
