/** The three metrics of app.py:30-32 and the `value_counts` of the CakeName
    column that the top-cake metric and the top-10 chart share. */
module Kpi {
  import opened Sales
  import Seqs

  /** `filtered_df['RetailPrice'].sum()`: 0 for no records. */
  function TotalSales(rs: seq<Record>): (total: Cents)
    ensures rs == [] ==> total == 0
    ensures (forall i :: 0 <= i < |rs| ==> rs[i].price >= 0) ==> total >= 0
  {
    if rs == [] then 0 else rs[0].price + TotalSales(rs[1..])
  }

  /** The sum over a concatenation is the sum of the sums. */
  lemma {:induction false} TotalSalesAppend(a: seq<Record>, b: seq<Record>)
    ensures TotalSales(a + b) == TotalSales(a) + TotalSales(b)
  {
    if a == [] {
      assert a + b == b;
    } else {
      assert (a + b)[1..] == a[1..] + b;
      TotalSalesAppend(a[1..], b);
    }
  }

  /** The distinct order numbers among the records. */
  function OrderNumbers(rs: seq<Record>): (s: set<OrderNumber>)
    ensures forall n :: n in s <==> exists i :: 0 <= i < |rs| && rs[i].orderNumber == n
  {
    set i | 0 <= i < |rs| :: rs[i].orderNumber
  }

  /** `filtered_df['FSOrderNumber'].nunique()`: the number of distinct
      order numbers, never more than the number of records, and 0 exactly
      for no records. */
  function TotalOrders(rs: seq<Record>): (n: nat)
    ensures n == |OrderNumbers(rs)|
    ensures n <= |rs|
    ensures n == 0 <==> rs == []
  {
    OrderNumbersBound(rs);
    |OrderNumbers(rs)|
  }

  lemma {:induction false} OrderNumbersBound(rs: seq<Record>)
    ensures |OrderNumbers(rs)| <= |rs|
    ensures |OrderNumbers(rs)| == 0 <==> rs == []
  {
    if rs != [] {
      assert rs[0].orderNumber in OrderNumbers(rs);
      OrderNumbersBound(rs[1..]);
      var tail := OrderNumbers(rs[1..]);
      assert OrderNumbers(rs) == {rs[0].orderNumber} + tail by {
        forall n | n in OrderNumbers(rs) ensures n in {rs[0].orderNumber} + tail {
          var i :| 0 <= i < |rs| && rs[i].orderNumber == n;
          if i > 0 {
            assert rs[1..][i - 1] == rs[i];
          }
        }
        forall n | n in tail ensures n in OrderNumbers(rs) {
          var i :| 0 <= i < |rs[1..]| && rs[1..][i].orderNumber == n;
          assert rs[i + 1] == rs[1..][i];
        }
      }
    }
  }

  /** A record set whose records all occur in another has no order number
      the other lacks. */
  lemma OrderNumbersOfMembers(sub: seq<Record>, rs: seq<Record>)
    requires forall x :: x in sub ==> x in rs
    ensures OrderNumbers(sub) <= OrderNumbers(rs)
  {
    forall n | n in OrderNumbers(sub) ensures n in OrderNumbers(rs) {
      var i :| 0 <= i < |sub| && sub[i].orderNumber == n;
      assert sub[i] in rs;
      var j :| 0 <= j < |rs| && rs[j] == sub[i];
    }
  }

  /** The orders of two record sets taken together are the orders of the
      one and those of the other. */
  lemma OrderNumbersAppend(a: seq<Record>, b: seq<Record>)
    ensures OrderNumbers(a + b) == OrderNumbers(a) + OrderNumbers(b)
  {
    var ab := a + b;
    forall n | n in OrderNumbers(ab) ensures n in OrderNumbers(a) + OrderNumbers(b) {
      var i :| 0 <= i < |ab| && ab[i].orderNumber == n;
      if i < |a| {
        assert a[i] == ab[i];
      } else {
        assert b[i - |a|] == ab[i];
      }
    }
    forall n | n in OrderNumbers(a) ensures n in OrderNumbers(ab) {
      var i :| 0 <= i < |a| && a[i].orderNumber == n;
      assert ab[i] == a[i];
    }
    forall n | n in OrderNumbers(b) ensures n in OrderNumbers(ab) {
      var i :| 0 <= i < |b| && b[i].orderNumber == n;
      assert ab[|a| + i] == b[i];
    }
  }

  /** Reordering the records (as the detail table does) keeps the same
      orders, so `nunique` does not depend on the order of the rows. */
  lemma OrderNumbersOfPermutation(a: seq<Record>, b: seq<Record>)
    requires multiset(a) == multiset(b)
    ensures OrderNumbers(a) == OrderNumbers(b)
    ensures TotalOrders(a) == TotalOrders(b)
  {
    forall x ensures x in a <==> x in b {
      assert x in a <==> x in multiset(a);
      assert x in b <==> x in multiset(b);
    }
    OrderNumbersOfMembers(a, b);
    OrderNumbersOfMembers(b, a);
  }

  /** Every order counted in a sub-selection of the records is counted in
      the whole, so filtering never raises the order count. */
  lemma TotalOrdersOfSubset(sub: seq<Record>, rs: seq<Record>)
    requires forall x :: x in sub ==> x in rs
    ensures TotalOrders(sub) <= TotalOrders(rs)
  {
    OrderNumbersOfMembers(sub, rs);
    SubsetCardinality(OrderNumbers(sub), OrderNumbers(rs));
  }

  lemma SubsetCardinality<T>(a: set<T>, b: set<T>)
    requires a <= b
    ensures |a| <= |b|
  {
    assert b == a + (b - a);
  }

  /** How often a cake name occurs among the records. */
  function Occurrences(rs: seq<Record>, name: string): (n: nat)
    ensures n <= |rs|
    ensures n > 0 <==> exists i :: 0 <= i < |rs| && rs[i].cakeName == name
  {
    if rs == [] then 0
    else
      var k := |rs| - 1;
      var front := Occurrences(rs[..k], name);
      assert forall i :: 0 <= i < k ==> rs[..k][i] == rs[i];
      front + (if rs[k].cakeName == name then 1 else 0)
  }

  /** The cake names that occur among the records. */
  function CakeNames(rs: seq<Record>): (s: set<string>)
    ensures forall n :: n in s <==> Occurrences(rs, n) > 0
  {
    set i | 0 <= i < |rs| :: rs[i].cakeName
  }

  /** One entry of `value_counts`: a cake name and how often it occurs. */
  datatype NameCount = NameCount(name: string, count: nat)

  function Names(cs: seq<NameCount>): set<string>
  {
    set c | c in cs :: c.name
  }

  /** No cake name has two entries. */
  ghost predicate DistinctNames(cs: seq<NameCount>)
  {
    forall i, j :: 0 <= i < j < |cs| ==> cs[i].name != cs[j].name
  }

  /** Every entry's count is the number of occurrences of its name. */
  ghost predicate CountsMatch(cs: seq<NameCount>, rs: seq<Record>)
  {
    forall c :: c in cs ==> c.count == Occurrences(rs, c.name)
  }

  /** Adds one occurrence of `name`: its entry goes up by one, or a new entry
      is appended after all existing ones. */
  function Bump(cs: seq<NameCount>, name: string): (r: seq<NameCount>)
    requires DistinctNames(cs)
    ensures DistinctNames(r)
    ensures Names(r) == Names(cs) + {name}
    ensures name in Names(cs) ==> |r| == |cs|
    ensures name !in Names(cs) ==> |r| == |cs| + 1
    ensures forall c :: c in r && c.name != name ==> c in cs
    ensures forall c :: c in r && c.name == name ==> c.count == 1 + CountIn(cs, name)
  {
    if cs == [] then [NameCount(name, 1)]
    else if cs[0].name == name then [NameCount(name, cs[0].count + 1)] + cs[1..]
    else
      assert Names(cs) == {cs[0].name} + Names(cs[1..]);
      var t := Bump(cs[1..], name);
      assert Names([cs[0]] + t) == {cs[0].name} + Names(t);
      [cs[0]] + t
  }

  /** The count an association list gives `name`: that of its first entry
      for the name, or 0. */
  function CountIn(cs: seq<NameCount>, name: string): nat
  {
    if cs == [] then 0
    else if cs[0].name == name then cs[0].count
    else CountIn(cs[1..], name)
  }

  /** The unsorted tally behind `value_counts`, one entry per distinct cake
      name in order of first appearance. */
  function Tally(rs: seq<Record>): (cs: seq<NameCount>)
    ensures Names(cs) == CakeNames(rs)
    ensures |cs| == |CakeNames(rs)|
    ensures DistinctNames(cs)
    ensures CountsMatch(cs, rs)
  {
    if rs == [] then []
    else
      var k := |rs| - 1;
      var front := Tally(rs[..k]);
      TallyStep(front, rs);
      Bump(front, rs[k].cakeName)
  }

  /** Counting the last record on top of the tally of all the others gives
      the tally of all records. */
  lemma TallyStep(front: seq<NameCount>, rs: seq<Record>)
    requires rs != []
    requires Names(front) == CakeNames(rs[..|rs| - 1])
    requires |front| == |CakeNames(rs[..|rs| - 1])|
    requires DistinctNames(front)
    requires CountsMatch(front, rs[..|rs| - 1])
    ensures var r := Bump(front, rs[|rs| - 1].cakeName);
            Names(r) == CakeNames(rs) && |r| == |CakeNames(rs)| && DistinctNames(r) && CountsMatch(r, rs)
  {
    var k := |rs| - 1;
    var init := rs[..k];
    var name := rs[k].cakeName;
    assert forall i :: 0 <= i < k ==> init[i] == rs[i];
    assert CakeNames(rs) == CakeNames(init) + {name};
    assert forall n :: Occurrences(rs, n) == Occurrences(init, n) + (if name == n then 1 else 0);
    var r := Bump(front, name);
    if name in Names(front) {
      CountInMatches(front, init, name);
    } else {
      CountInAbsent(front, name);
    }
  }

  lemma {:induction false} CountInMatches(cs: seq<NameCount>, rs: seq<Record>, name: string)
    requires CountsMatch(cs, rs)
    requires name in Names(cs)
    ensures CountIn(cs, name) == Occurrences(rs, name)
  {
    if cs[0].name != name {
      assert Names(cs) == {cs[0].name} + Names(cs[1..]);
      CountInMatches(cs[1..], rs, name);
    }
  }

  lemma {:induction false} CountInAbsent(cs: seq<NameCount>, name: string)
    requires name !in Names(cs)
    ensures CountIn(cs, name) == 0
  {
    if cs != [] {
      assert Names(cs) == {cs[0].name} + Names(cs[1..]);
      CountInAbsent(cs[1..], name);
    }
  }

  /** A list with as many distinct names as entries repeats no name. */
  lemma {:induction false} DistinctByCardinality(cs: seq<NameCount>)
    requires |Names(cs)| == |cs|
    ensures DistinctNames(cs)
  {
    if cs != [] {
      var tail := cs[1..];
      assert Names(cs) == {cs[0].name} + Names(tail);
      NamesBound(tail);
      assert cs[0].name !in Names(tail);
      DistinctByCardinality(tail);
      forall j | 0 < j < |cs| ensures cs[0].name != cs[j].name {
        assert cs[j] == tail[j - 1];
        assert cs[j].name in Names(tail);
      }
    }
  }

  lemma {:induction false} NamesBound(cs: seq<NameCount>)
    ensures |Names(cs)| <= |cs|
  {
    if cs != [] {
      assert Names(cs) == {cs[0].name} + Names(cs[1..]);
      NamesBound(cs[1..]);
    }
  }

  /** `filtered_df['CakeName'].value_counts()`: the tally sorted by count,
      most frequent first. */
  function ValueCounts(rs: seq<Record>): (vc: seq<NameCount>)
    ensures Names(vc) == CakeNames(rs)
    ensures |vc| == |CakeNames(rs)|
    ensures DistinctNames(vc)
    ensures CountsMatch(vc, rs)
    ensures Seqs.NonIncreasingBy(vc, (c: NameCount) => c.count)
  {
    var cs := Tally(rs);
    var vc := Seqs.SortDescBy(cs, (c: NameCount) => c.count);
    assert forall c :: c in vc <==> c in cs by {
      forall c ensures c in vc <==> c in cs {
        assert c in vc <==> c in multiset(vc);
        assert c in cs <==> c in multiset(cs);
      }
    }
    assert Names(vc) == Names(cs);
    DistinctByCardinality(vc);
    vc
  }

  /** `value_counts().idxmax()`: a most frequent cake name. The source
      raises on an empty selection. */
  function TopCake(rs: seq<Record>): (name: string)
    requires |rs| > 0
    ensures Occurrences(rs, name) > 0
    ensures forall n :: Occurrences(rs, n) <= Occurrences(rs, name)
  {
    var vc := ValueCounts(rs);
    assert rs[0].cakeName in CakeNames(rs);
    assert vc != [];
    assert vc[0] in vc;
    forall n | Occurrences(rs, n) > 0 ensures Occurrences(rs, n) <= vc[0].count {
      assert n in Names(vc);
      var j :| 0 <= j < |vc| && vc[j].name == n;
    }
    vc[0].name
  }
}
