/** The top-10 bar chart of app.py:46 and the detail table of app.py:53. */
module Charts {
  import opened Sales
  import opened Kpi
  import Seqs

  /** Number of bars in the bestseller chart. */
  const TopN: nat := 10

  /** `value_counts().nlargest(10)`: the ten most frequent cake names with
      their counts, most frequent first (all names when there are fewer). */
  function TopCakes(rs: seq<Record>): (top: seq<NameCount>)
    ensures |top| <= TopN
    ensures |top| == if |CakeNames(rs)| < TopN then |CakeNames(rs)| else TopN
    ensures Names(top) <= CakeNames(rs)
    ensures DistinctNames(top)
    ensures CountsMatch(top, rs)
    ensures Seqs.NonIncreasingBy(top, (c: NameCount) => c.count)
    ensures forall n, c :: n !in Names(top) && c in top ==> Occurrences(rs, n) <= c.count
  {
    var vc := ValueCounts(rs);
    var k := if |vc| < TopN then |vc| else TopN;
    PrefixOfRanking(vc, rs, k);
    vc[..k]
  }

  /** Any prefix of a ranking is a ranking, and no name left out of it
      outnumbers a name in it. */
  lemma PrefixOfRanking(vc: seq<NameCount>, rs: seq<Record>, k: nat)
    requires k <= |vc|
    requires Names(vc) == CakeNames(rs)
    requires DistinctNames(vc) && CountsMatch(vc, rs)
    requires Seqs.NonIncreasingBy(vc, (c: NameCount) => c.count)
    ensures Names(vc[..k]) <= CakeNames(rs)
    ensures DistinctNames(vc[..k]) && CountsMatch(vc[..k], rs)
    ensures Seqs.NonIncreasingBy(vc[..k], (c: NameCount) => c.count)
    ensures forall n, c :: n !in Names(vc[..k]) && c in vc[..k] ==> Occurrences(rs, n) <= c.count
  {
    var top := vc[..k];
    assert forall i :: 0 <= i < k ==> top[i] == vc[i];
    forall n, c | n !in Names(top) && c in top ensures Occurrences(rs, n) <= c.count {
      if Occurrences(rs, n) > 0 {
        assert n in Names(vc);
        var j :| 0 <= j < |vc| && vc[j] in vc && vc[j].name == n;
        var i :| 0 <= i < k && top[i] == c;
        assert forall m :: 0 <= m < k ==> top[m] in top;
        assert j >= k;
      }
    }
  }

  /** With fewer than ten cake names, every name gets a bar. */
  lemma TopCakesListsAllWhenFew(rs: seq<Record>)
    requires |CakeNames(rs)| <= TopN
    ensures Names(TopCakes(rs)) == CakeNames(rs)
  {
    var top := TopCakes(rs);
    var vc := ValueCounts(rs);
    assert top == vc[..|vc|];
    assert top == vc;
  }

  /** The top-cake metric names the first bar of the chart. */
  lemma TopCakeHeadsChart(rs: seq<Record>)
    requires |rs| > 0
    ensures |TopCakes(rs)| > 0 && TopCakes(rs)[0].name == TopCake(rs)
    ensures TopCakes(rs)[0].count == Occurrences(rs, TopCake(rs))
  {
    assert rs[0].cakeName in CakeNames(rs);
    assert TopCakes(rs)[0] in TopCakes(rs);
  }

  /** `sort_values(by="OrderDate", ascending=False)`: the same records,
      latest first. */
  function DetailTable(rs: seq<Record>): (table: seq<Record>)
    ensures multiset(table) == multiset(rs)
    ensures forall i, j :: 0 <= i < j < |table| ==> table[i].date >= table[j].date
  {
    var table := Seqs.SortDescBy(rs, (x: Record) => x.date);
    assert Seqs.NonIncreasingBy(table, (x: Record) => x.date);
    table
  }
}
