/** Generic sequence operations that the dashboard's dataframe calls are built
    from: a boolean-mask filter and a descending sort on an integer key. */
module Seqs {

  /** `xs` can be obtained from `ys` by deleting elements, keeping the order
      of the rest. */
  ghost predicate Subsequence<T>(xs: seq<T>, ys: seq<T>)
  {
    xs == [] ||
    (ys != [] &&
     ((xs[0] == ys[0] && Subsequence(xs[1..], ys[1..])) || Subsequence(xs, ys[1..])))
  }

  /** Boolean-mask selection: the elements of `s` that satisfy `p`, in their
      original order. */
  function Filter<T(!new)>(s: seq<T>, p: T -> bool): (r: seq<T>)
    ensures forall x :: x in r <==> x in s && p(x)
    ensures |r| <= |s|
    ensures (forall x :: x in s ==> p(x)) ==> r == s
    ensures (forall x :: x in s ==> !p(x)) ==> r == []
  {
    if s == [] then []
    else if p(s[0]) then [s[0]] + Filter(s[1..], p)
    else Filter(s[1..], p)
  }

  lemma {:induction false} FilterIsSubsequence<T(!new)>(s: seq<T>, p: T -> bool)
    ensures Subsequence(Filter(s, p), s)
  {
    if s != [] {
      FilterIsSubsequence(s[1..], p);
      var r := Filter(s, p);
      if p(s[0]) {
        assert r[0] == s[0] && r[1..] == Filter(s[1..], p);
      }
    }
  }

  /** Filtering distributes over concatenation: together with the effect on
      a single element this pins the filter down completely, and says that
      surviving elements keep their relative order. */
  lemma {:induction false} FilterAppend<T(!new)>(a: seq<T>, b: seq<T>, p: T -> bool)
    ensures Filter(a + b, p) == Filter(a, p) + Filter(b, p)
  {
    if a != [] {
      var ab := a + b;
      assert ab[0] == a[0];
      assert ab[1..] == a[1..] + b;
      FilterAppend(a[1..], b, p);
      if p(a[0]) {
        calc {
          Filter(ab, p);
          [a[0]] + Filter(a[1..] + b, p);
          [a[0]] + (Filter(a[1..], p) + Filter(b, p));
          ([a[0]] + Filter(a[1..], p)) + Filter(b, p);
          Filter(a, p) + Filter(b, p);
        }
      } else {
        calc {
          Filter(ab, p);
          Filter(a[1..] + b, p);
          Filter(a[1..], p) + Filter(b, p);
          Filter(a, p) + Filter(b, p);
        }
      }
    } else {
      assert a + b == b;
    }
  }

  ghost predicate NonIncreasingBy<T>(s: seq<T>, key: T -> int)
  {
    forall i, j :: 0 <= i < j < |s| ==> key(s[i]) >= key(s[j])
  }

  /** Places `x` in front of the first element whose key is not larger. */
  function InsertDescBy<T(!new)>(x: T, s: seq<T>, key: T -> int): (r: seq<T>)
    ensures multiset(r) == multiset(s) + multiset{x}
    ensures |r| == |s| + 1
    ensures NonIncreasingBy(s, key) ==> NonIncreasingBy(r, key)
  {
    if s == [] then [x]
    else if key(x) >= key(s[0]) then [x] + s
    else
      var t := InsertDescBy(x, s[1..], key);
      assert s == [s[0]] + s[1..];
      InsertKeepsOrder(x, s, t, key);
      [s[0]] + t
  }

  lemma InsertKeepsOrder<T(!new)>(x: T, s: seq<T>, t: seq<T>, key: T -> int)
    requires s != [] && key(x) < key(s[0])
    requires multiset(t) == multiset(s[1..]) + multiset{x}
    requires NonIncreasingBy(s[1..], key) ==> NonIncreasingBy(t, key)
    ensures NonIncreasingBy(s, key) ==> NonIncreasingBy([s[0]] + t, key)
  {
    if NonIncreasingBy(s, key) {
      var r := [s[0]] + t;
      forall j | 0 < j < |r| ensures key(r[0]) >= key(r[j]) {
        var y := t[j - 1];
        assert y in multiset(t);
        if y != x {
          assert y in multiset(s[1..]);
          var k :| 0 <= k < |s[1..]| && s[1..][k] == y;
          assert s[k + 1] == y;
        }
      }
    }
  }

  /** Stable insertion sort, largest key first; elements with equal keys
      keep their original order. */
  function SortDescBy<T(!new)>(s: seq<T>, key: T -> int): (r: seq<T>)
    ensures multiset(r) == multiset(s)
    ensures |r| == |s|
    ensures NonIncreasingBy(r, key)
  {
    if s == [] then []
    else
      assert s == [s[0]] + s[1..];
      InsertDescBy(s[0], SortDescBy(s[1..], key), key)
  }
}
