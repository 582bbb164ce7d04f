/** The sales trend of app.py:40: `groupby('OrderDate')['RetailPrice'].sum()`,
    one entry per distinct OrderDate value in ascending order. The grouping
    key is the whole timestamp, so it is one entry per day when each day's
    orders share one timestamp (all at midnight, for example). */
module Daily {
  import opened Sales
  import Kpi

  /** The sum of the prices of the records stamped `t`. */
  function SalesAt(rs: seq<Record>, t: Timestamp): (s: Cents)
    ensures (forall i :: 0 <= i < |rs| ==> rs[i].date != t) ==> s == 0
  {
    if rs == [] then 0
    else (if rs[0].date == t then rs[0].price else 0) + SalesAt(rs[1..], t)
  }

  function RecordDates(rs: seq<Record>): set<Timestamp>
  {
    set i | 0 <= i < |rs| :: rs[i].date
  }

  /** One point of the trend line. */
  datatype DailyTotal = DailyTotal(date: Timestamp, sales: Cents)

  function Dates(es: seq<DailyTotal>): set<Timestamp>
  {
    if es == [] then {} else {es[0].date} + Dates(es[1..])
  }

  /** Every entry of `es` is later than `t`. */
  ghost predicate AllAfter(es: seq<DailyTotal>, t: Timestamp)
  {
    forall i :: 0 <= i < |es| ==> t < es[i].date
  }

  ghost predicate StrictlyIncreasing(es: seq<DailyTotal>)
  {
    forall i, j :: 0 <= i < j < |es| ==> es[i].date < es[j].date
  }

  /** The total of the entries stamped `t`. */
  function Amount(es: seq<DailyTotal>, t: Timestamp): Cents
  {
    if es == [] then 0
    else (if es[0].date == t then es[0].sales else 0) + Amount(es[1..], t)
  }

  function SumEntries(es: seq<DailyTotal>): Cents
  {
    if es == [] then 0 else es[0].sales + SumEntries(es[1..])
  }

  /** Adds one sale to a trend kept in ascending date order: into the entry
      for its date, or as a new entry in its place. */
  function AddSale(es: seq<DailyTotal>, t: Timestamp, price: Cents): (r: seq<DailyTotal>)
    ensures Dates(r) == Dates(es) + {t}
    ensures StrictlyIncreasing(es) ==> StrictlyIncreasing(r)
    ensures forall b :: AllAfter(es, b) && b < t ==> AllAfter(r, b)
    ensures forall u :: Amount(r, u) == Amount(es, u) + (if u == t then price else 0)
    ensures SumEntries(r) == SumEntries(es) + price
  {
    if es == [] then [DailyTotal(t, price)]
    else if t < es[0].date then
      var e := DailyTotal(t, price);
      Cons(e, es);
      assert StrictlyIncreasing(es) ==> StrictlyIncreasing([e] + es);
      [e] + es
    else if t == es[0].date then
      var e := DailyTotal(t, es[0].sales + price);
      Cons(es[0], es[1..]);
      Cons(e, es[1..]);
      [e] + es[1..]
    else
      var rest := AddSale(es[1..], t, price);
      Cons(es[0], es[1..]);
      Cons(es[0], rest);
      AddSaleOrder(es, t, rest);
      [es[0]] + rest
  }

  /** How the views of a trend decompose at its first entry. */
  lemma Cons(e: DailyTotal, es: seq<DailyTotal>)
    ensures ([e] + es)[1..] == es
    ensures Dates([e] + es) == {e.date} + Dates(es)
    ensures forall u :: Amount([e] + es, u) == (if e.date == u then e.sales else 0) + Amount(es, u)
    ensures SumEntries([e] + es) == e.sales + SumEntries(es)
    ensures forall b :: AllAfter([e] + es, b) <==> b < e.date && AllAfter(es, b)
  {
    var r := [e] + es;
    assert r[1..] == es;
    assert forall j :: 0 < j < |r| ==> r[j] == es[j - 1];
  }

  lemma AddSaleOrder(es: seq<DailyTotal>, t: Timestamp, rest: seq<DailyTotal>)
    requires es != [] && es[0].date < t
    requires StrictlyIncreasing(es[1..]) ==> StrictlyIncreasing(rest)
    requires AllAfter(es[1..], es[0].date) ==> AllAfter(rest, es[0].date)
    ensures StrictlyIncreasing(es) ==> StrictlyIncreasing([es[0]] + rest)
  {
    if StrictlyIncreasing(es) {
      assert AllAfter(es[1..], es[0].date);
      var r := [es[0]] + rest;
      assert forall j :: 0 < j < |r| ==> r[j] == rest[j - 1];
    }
  }

  /** `groupby('OrderDate')['RetailPrice'].sum()`. */
  function DailySales(rs: seq<Record>): (es: seq<DailyTotal>)
    ensures Dates(es) == RecordDates(rs)
    ensures StrictlyIncreasing(es)
    ensures forall u :: Amount(es, u) == SalesAt(rs, u)
    ensures SumEntries(es) == Kpi.TotalSales(rs)
  {
    if rs == [] then []
    else
      var rest := DailySales(rs[1..]);
      assert RecordDates(rs) == {rs[0].date} + RecordDates(rs[1..]) by {
        assert forall i :: 1 <= i < |rs| ==> rs[i] == rs[1..][i - 1];
        forall u | u in RecordDates(rs[1..]) ensures u in RecordDates(rs) {
          var i :| 0 <= i < |rs[1..]| && rs[1..][i].date == u;
          assert rs[i + 1].date == u;
        }
      }
      AddSale(rest, rs[0].date, rs[0].price)
  }

  /** In a trend with one entry per date, the total for an entry's date is
      that entry's value. */
  lemma {:induction false} AmountOfEntry(es: seq<DailyTotal>, i: nat)
    requires StrictlyIncreasing(es)
    requires i < |es|
    ensures Amount(es, es[i].date) == es[i].sales
  {
    if i == 0 {
      AmountAbsent(es[1..], es[0].date);
    } else {
      AmountOfEntry(es[1..], i - 1);
    }
  }

  lemma {:induction false} AmountAbsent(es: seq<DailyTotal>, t: Timestamp)
    requires forall j :: 0 <= j < |es| ==> t < es[j].date
    ensures Amount(es, t) == 0
  {
    if es != [] {
      AmountAbsent(es[1..], t);
    }
  }

  /** Every point of the trend is the sum of the prices of the records
      stamped with its date, and the points add up to the total sales. */
  lemma DailySalesEntries(rs: seq<Record>)
    ensures forall i :: 0 <= i < |DailySales(rs)| ==>
              DailySales(rs)[i].sales == SalesAt(rs, DailySales(rs)[i].date)
    ensures SumEntries(DailySales(rs)) == Kpi.TotalSales(rs)
  {
    var es := DailySales(rs);
    forall i | 0 <= i < |es| ensures es[i].sales == SalesAt(rs, es[i].date) {
      AmountOfEntry(es, i);
    }
  }
}
