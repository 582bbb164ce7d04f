/** The sidebar's date range and the filter of app.py:20-24.

    The loaded OrderDate values are timestamps, but the date picker works in
    calendar days: its default range is the days of the earliest and latest
    order, and each chosen day is turned back into a timestamp at midnight
    before the comparison. */
module DateFilter {
  import opened Sales
  import Seqs

  /** A calendar day, counted from the epoch. */
  type Day = int

  const SecondsPerDay: int := 86400

  /** The timestamp at the start of day `d`. */
  function Midnight(d: Day): (t: Timestamp)
    ensures t % SecondsPerDay == 0
  {
    d * SecondsPerDay
  }

  /** The calendar day a timestamp falls on (rounding towards the past, as a
      date of a datetime does for times before the epoch too). */
  function DayOf(t: Timestamp): (d: Day)
    ensures Midnight(d) <= t < Midnight(d + 1)
  {
    t / SecondsPerDay
  }

  lemma DayOfMidnight(d: Day)
    ensures DayOf(Midnight(d)) == d
  {
    var t := Midnight(d);
    assert Midnight(DayOf(t)) <= t < Midnight(DayOf(t) + 1);
  }

  /** `df['OrderDate'].min()`; the source raises on an empty frame. */
  function MinDate(rs: seq<Record>): (m: Timestamp)
    requires |rs| > 0
    ensures exists i :: 0 <= i < |rs| && rs[i].date == m
    ensures forall i :: 0 <= i < |rs| ==> m <= rs[i].date
  {
    if |rs| == 1 then rs[0].date
    else
      var m' := MinDate(rs[1..]);
      assert forall i :: 1 <= i < |rs| ==> rs[i] == rs[1..][i - 1];
      if rs[0].date <= m' then rs[0].date else m'
  }

  /** `df['OrderDate'].max()`; the source raises on an empty frame. */
  function MaxDate(rs: seq<Record>): (m: Timestamp)
    requires |rs| > 0
    ensures exists i :: 0 <= i < |rs| && rs[i].date == m
    ensures forall i :: 0 <= i < |rs| ==> rs[i].date <= m
  {
    if |rs| == 1 then rs[0].date
    else
      var m' := MaxDate(rs[1..]);
      assert forall i :: 1 <= i < |rs| ==> rs[i] == rs[1..][i - 1];
      if rs[0].date >= m' then rs[0].date else m'
  }

  /** The range the picker starts with: the days of the earliest and the
      latest order. */
  datatype Range = Range(start: Day, end: Day)

  function DefaultRange(rs: seq<Record>): (r: Range)
    requires |rs| > 0
    ensures r.start <= r.end
    ensures forall i :: 0 <= i < |rs| ==> r.start <= DayOf(rs[i].date) <= r.end
    ensures exists i :: 0 <= i < |rs| && DayOf(rs[i].date) == r.start
    ensures exists i :: 0 <= i < |rs| && DayOf(rs[i].date) == r.end
  {
    var lo, hi := MinDate(rs), MaxDate(rs);
    forall i | 0 <= i < |rs| ensures DayOf(lo) <= DayOf(rs[i].date) <= DayOf(hi) {
      DayOfMonotone(lo, rs[i].date);
      DayOfMonotone(rs[i].date, hi);
    }
    Range(DayOf(lo), DayOf(hi))
  }

  lemma DayOfMonotone(s: Timestamp, t: Timestamp)
    requires s <= t
    ensures DayOf(s) <= DayOf(t)
  {
    assert Midnight(DayOf(s)) <= s && t < Midnight(DayOf(t) + 1);
  }

  /** The comparison app.py:24 makes: both bounds are midnights, so the end
      day counts only up to its first instant. */
  predicate InWindowAsWritten(t: Timestamp, r: Range)
  {
    Midnight(r.start) <= t <= Midnight(r.end)
  }

  /** The mask of app.py:24 as written. */
  function FilterAsWritten(rs: seq<Record>, r: Range): (out: seq<Record>)
    ensures forall x :: x in out <==> x in rs && Midnight(r.start) <= x.date <= Midnight(r.end)
    ensures r.start > r.end ==> out == []
  {
    Seqs.Filter(rs, (x: Record) => InWindowAsWritten(x.date, r))
  }

  /** The whole of every chosen day, from its midnight up to the next one. */
  predicate InWindow(t: Timestamp, r: Range)
  {
    r.start <= DayOf(t) <= r.end
  }

  /** The range filter with both ends inclusive as calendar days: the
      records ordered on a day from `r.start` to `r.end`. */
  function FilterByDay(rs: seq<Record>, r: Range): (out: seq<Record>)
    ensures forall x :: x in out <==> x in rs && r.start <= DayOf(x.date) <= r.end
    ensures forall x :: x in out <==> x in rs && Midnight(r.start) <= x.date < Midnight(r.end + 1)
    ensures r.start > r.end ==> out == []
  {
    forall t: Timestamp ensures InWindow(t, r) <==> Midnight(r.start) <= t < Midnight(r.end + 1) {
      WindowByTimestamp(t, r);
    }
    Seqs.Filter(rs, (x: Record) => InWindow(x.date, r))
  }

  lemma WindowByTimestamp(t: Timestamp, r: Range)
    ensures InWindow(t, r) <==> Midnight(r.start) <= t < Midnight(r.end + 1)
  {
    var d := DayOf(t);
    if d < r.start {
      assert Midnight(d + 1) <= Midnight(r.start);
    }
    if d > r.end {
      assert Midnight(r.end + 1) <= Midnight(d);
    }
    if Midnight(r.start) <= t {
      if d < r.start {
        assert false;
      }
    }
    if t < Midnight(r.end + 1) {
      if d > r.end {
        assert false;
      }
    }
  }

  /** The filter keeps the surviving records in their original order. */
  lemma FilterByDayKeepsOrder(rs: seq<Record>, r: Range)
    ensures Seqs.Subsequence(FilterByDay(rs, r), rs)
  {
    Seqs.FilterIsSubsequence(rs, (x: Record) => InWindow(x.date, r));
  }

  lemma FilterAsWrittenKeepsOrder(rs: seq<Record>, r: Range)
    ensures Seqs.Subsequence(FilterAsWritten(rs, r), rs)
  {
    Seqs.FilterIsSubsequence(rs, (x: Record) => InWindowAsWritten(x.date, r));
  }

  /** With the default range, the day-based filter returns every loaded
      record. */
  lemma DefaultRangeKeepsAll(rs: seq<Record>)
    requires |rs| > 0
    ensures FilterByDay(rs, DefaultRange(rs)) == rs
  {
    var r := DefaultRange(rs);
    forall x | x in rs ensures InWindow(x.date, r) {
      var i :| 0 <= i < |rs| && rs[i] == x;
    }
  }

  /** The filter as written returns every loaded record under the default
      range exactly when the latest order is stamped at midnight: any record
      later than midnight on the last day is dropped. */
  lemma AsWrittenKeepsAllIff(rs: seq<Record>)
    requires |rs| > 0
    ensures FilterAsWritten(rs, DefaultRange(rs)) == rs <==> MaxDate(rs) % SecondsPerDay == 0
  {
    if FilterAsWritten(rs, DefaultRange(rs)) == rs {
      KeepsAllOnlyAtMidnight(rs);
    }
    if MaxDate(rs) % SecondsPerDay == 0 {
      KeepsAllAtMidnight(rs);
    }
  }

  lemma KeepsAllOnlyAtMidnight(rs: seq<Record>)
    requires |rs| > 0
    requires FilterAsWritten(rs, DefaultRange(rs)) == rs
    ensures MaxDate(rs) % SecondsPerDay == 0
  {
    var hi := MaxDate(rs);
    var k :| 0 <= k < |rs| && rs[k].date == hi;
    assert rs[k] in FilterAsWritten(rs, DefaultRange(rs));
    assert hi <= Midnight(DayOf(hi));
  }

  lemma KeepsAllAtMidnight(rs: seq<Record>)
    requires |rs| > 0
    requires MaxDate(rs) % SecondsPerDay == 0
    ensures FilterAsWritten(rs, DefaultRange(rs)) == rs
  {
    var r := DefaultRange(rs);
    var lo, hi := MinDate(rs), MaxDate(rs);
    assert hi == Midnight(DayOf(hi));
    assert Midnight(DayOf(lo)) <= lo;
    forall x | x in rs ensures InWindowAsWritten(x.date, r) {
      var i :| 0 <= i < |rs| && rs[i] == x;
      assert lo <= x.date <= hi;
    }
  }

  /** The input that shows the discrepancy: one order at 01:00 on day 1.
      The default range is [day 1, day 1] and the filter as written keeps
      nothing. */
  lemma AsWrittenDropsLastDay()
    ensures var rs := [Record(SecondsPerDay + 3600, 1001, 2500, "Chocolate")];
            DefaultRange(rs) == Range(1, 1) && FilterAsWritten(rs, DefaultRange(rs)) == []
  {
    var rs := [Record(SecondsPerDay + 3600, 1001, 2500, "Chocolate")];
    assert MinDate(rs) == MaxDate(rs) == SecondsPerDay + 3600;
    assert DayOf(SecondsPerDay + 3600) == 1;
    assert !InWindowAsWritten(rs[0].date, Range(1, 1));
  }

  /** When every order is stamped at midnight, the two filters agree. */
  lemma {:induction false} FiltersAgreeOnMidnights(rs: seq<Record>, r: Range)
    requires forall i :: 0 <= i < |rs| ==> rs[i].date % SecondsPerDay == 0
    ensures FilterAsWritten(rs, r) == FilterByDay(rs, r)
  {
    if rs != [] {
      assert forall i :: 1 <= i < |rs| ==> rs[i] == rs[1..][i - 1];
      FiltersAgreeOnMidnights(rs[1..], r);
      var t := rs[0].date;
      assert t == Midnight(DayOf(t));
      WindowByTimestamp(t, r);
      if InWindow(t, r) {
        assert Midnight(DayOf(t)) <= Midnight(r.end);
      } else if Midnight(r.start) <= t {
        assert t >= Midnight(r.end + 1);
      }
    }
  }
}
