/** Statistics over competitor prices: the median of a sorted copy, the minimum, and the same
    two figures computed from rows that the database has ordered. */
module PriceStats {
  import opened Basics

  ghost predicate Sorted(s: seq<real>) {
    forall i, j :: 0 <= i < j < |s| ==> s[i] <= s[j]
  }

  function Insert(x: real, s: seq<real>): (r: seq<real>)
    ensures |r| == |s| + 1
  {
    if s == [] || x <= s[0] then [x] + s else [s[0]] + Insert(x, s[1..])
  }

  function Sort(s: seq<real>): (r: seq<real>)
    ensures |r| == |s|
  {
    if s == [] then [] else Insert(s[0], Sort(s[1..]))
  }

  lemma FirstAndRest(s: seq<real>)
    requires s != []
    ensures s == [s[0]] + s[1..] && multiset(s) == multiset{s[0]} + multiset(s[1..])
  {
    assert s == [s[0]] + s[1..];
  }

  lemma {:induction false} InsertKeepsElements(x: real, s: seq<real>)
    ensures multiset(Insert(x, s)) == multiset(s) + multiset{x}
  {
    if s != [] && x > s[0] {
      InsertKeepsElements(x, s[1..]);
      FirstAndRest(s);
    }
  }

  lemma {:induction false} InsertSorts(x: real, s: seq<real>)
    requires Sorted(s)
    ensures Sorted(Insert(x, s))
  {
    if s != [] && x > s[0] {
      InsertSorts(x, s[1..]);
      InsertKeepsElements(x, s[1..]);
      var r := Insert(x, s[1..]);
      forall k | 0 <= k < |r| ensures s[0] <= r[k] {
        assert r[k] in multiset(s[1..]) + multiset{x};
        assert r[k] == x || r[k] in s[1..];
      }
    }
  }

  lemma {:induction false} SortSorts(s: seq<real>)
    ensures Sorted(Sort(s)) && multiset(Sort(s)) == multiset(s)
  {
    if s != [] {
      SortSorts(s[1..]);
      InsertSorts(s[0], Sort(s[1..]));
      InsertKeepsElements(s[0], Sort(s[1..]));
      FirstAndRest(s);
    }
  }

  lemma SameRest(a: multiset<real>, b: multiset<real>, x: real)
    requires multiset{x} + a == multiset{x} + b
    ensures a == b
  {
    assert (multiset{x} + a) - multiset{x} == a && (multiset{x} + b) - multiset{x} == b;
  }

  lemma FirstIsLeast(s: seq<real>, x: real)
    requires Sorted(s) && x in s
    ensures s[0] <= x
  {}

  lemma SameFirst(s: seq<real>, t: seq<real>)
    requires Sorted(s) && Sorted(t) && multiset(s) == multiset(t) && s != []
    ensures t != [] && s[0] == t[0]
  {
    assert s[0] in multiset(t);
    assert t[0] in multiset(s);
    FirstIsLeast(s, t[0]);
    FirstIsLeast(t, s[0]);
  }

  /** A sorted list is determined by its elements, so any sorting algorithm gives the same. */
  lemma {:induction false} SortedIsUnique(s: seq<real>, t: seq<real>)
    requires Sorted(s) && Sorted(t) && multiset(s) == multiset(t)
    ensures s == t
    decreases |s|
  {
    if s == [] {
      assert |multiset(t)| == |t|;
    } else {
      SameFirst(s, t);
      FirstAndRest(s);
      FirstAndRest(t);
      SameRest(multiset(s[1..]), multiset(t[1..]), s[0]);
      SortedIsUnique(s[1..], t[1..]);
    }
  }

  function Middle(s: seq<real>): real {
    if s == [] then 0.0
    else if |s| % 2 == 1 then s[|s| / 2]
    else (s[|s| / 2 - 1] + s[|s| / 2]) / 2.0
  }

  function Median(values: seq<real>): real {
    Middle(Sort(values))
  }

  /** An in-place sort, by insertion from the right; any other gives the same array. */
  method SortInPlace(a: array<real>)
    modifies a
    ensures a[..] == Sort(old(a[..]))
  {
    var k := a.Length;
    while k > 0
      invariant 0 <= k <= a.Length
      invariant a[..k] == old(a[..k]) && a[k..] == Sort(old(a[k..]))
    {
      k := k - 1;
      InsertInPlace(a, k);
    }
  }

  /** Moves `a[k]` to its place in the sorted rest. */
  method InsertInPlace(a: array<real>, k: nat)
    requires k < a.Length
    modifies a
    ensures a[..k] == old(a[..k]) && a[k..] == Insert(old(a[k]), old(a[k + 1..]))
  {
    var j := k;
    assert a[k..k] == [] && a[..][k + 1..] == a[k + 1..];
    while j + 1 < a.Length && a[j] > a[j + 1]
      invariant k <= j < a.Length && a[..k] == old(a[..k])
      invariant Placed(a[..], k, j) == Placed(old(a[..]), k, k)
    {
      ghost var s := a[..];
      a[j], a[j + 1] := a[j + 1], a[j];
      assert a[..] == s[j := s[j + 1]][j + 1 := s[j]];
      SwapKeepsPlaced(s, k, j);
      j := j + 1;
    }
    PlacedIsRest(a[..], k, j);
  }

  /** What the array from `k` on will be when the element at `j` is inserted into what follows it. */
  ghost function Placed(s: seq<real>, k: nat, j: nat): seq<real>
    requires k <= j < |s|
  {
    s[k..j] + Insert(s[j], s[j + 1..])
  }

  lemma SwapKeepsPlaced(s: seq<real>, k: nat, j: nat)
    requires k <= j < j + 1 < |s| && s[j] > s[j + 1]
    ensures var t := s[j := s[j + 1]][j + 1 := s[j]]; t[..k] == s[..k] && Placed(t, k, j + 1) == Placed(s, k, j)
  {
    var t := s[j := s[j + 1]][j + 1 := s[j]];
    assert s[j + 1..][1..] == s[j + 2..] == t[j + 2..];
    assert t[k..j + 1] == s[k..j] + [s[j + 1]];
  }

  lemma PlacedIsRest(s: seq<real>, k: nat, j: nat)
    requires k <= j < |s| && (j + 1 < |s| ==> s[j] <= s[j + 1])
    ensures Placed(s, k, j) == s[k..]
  {
    assert s[k..] == s[k..j] + ([s[j]] + s[j + 1..]);
  }

  /** The handler copies the values and sorts the copy. */
  method ComputeMedian(values: array<real>) returns (m: real)
    ensures m == Median(values[..])
    ensures forall s :: Sorted(s) && multiset(s) == multiset(values[..]) ==> m == Middle(s)
    ensures values[..] == old(values[..])
  {
    var n := values.Length;
    if n == 0 { return 0.0; }
    var sorted := new real[n](i requires 0 <= i < n reads values => values[i]);
    assert sorted[..] == values[..];
    SortInPlace(sorted);
    SortSorts(values[..]);
    forall s | Sorted(s) && multiset(s) == multiset(values[..]) ensures s == sorted[..] {
      SortedIsUnique(s, sorted[..]);
    }
    m := if n % 2 == 1 then sorted[n / 2] else (sorted[n / 2 - 1] + sorted[n / 2]) / 2.0;
  }

  function Least(values: seq<real>): real {
    if values == [] then 0.0 else Sort(values)[0]
  }

  method MinPrice(values: seq<real>) returns (m: real)
    ensures m == Least(values)
    ensures values != [] ==> m in values && forall k :: 0 <= k < |values| ==> m <= values[k]
  {
    if values == [] { return 0.0; }
    m := values[0];
    for k := 1 to |values|
      invariant m in values && forall l :: 0 <= l < k ==> m <= values[l]
    {
      if values[k] < m { m := values[k]; }
    }
    SortSorts(values);
    assert Sort(values)[0] in multiset(values) && m in multiset(Sort(values));
  }

  // ---- What the median is ----

  /** The middle value, or the mean of the two middle ones; zero for no values. */
  ghost predicate InTheMiddle(s: seq<real>, m: real) {
    var n := |s|;
    if n == 0 then m == 0.0
    else if n % 2 == 1 then m == s[(n - 1) / 2]
    else m + m == s[n / 2 - 1] + s[n / 2]
  }

  lemma MedianIsInTheMiddle(values: seq<real>, s: seq<real>)
    requires Sorted(s) && multiset(s) == multiset(values)
    ensures InTheMiddle(s, Median(values))
    ensures s != [] ==> Least(values) == s[0]
  {
    OrderedRows(s, values);
  }

  function CountAtMost(s: seq<real>, m: real): nat {
    if s == [] then 0 else CountAtMost(s[1..], m) + (if s[0] <= m then 1 else 0)
  }

  function CountAtLeast(s: seq<real>, m: real): nat {
    if s == [] then 0 else CountAtLeast(s[1..], m) + (if s[0] >= m then 1 else 0)
  }

  lemma {:induction false} CountsOfInsert(x: real, s: seq<real>, m: real)
    ensures CountAtMost(Insert(x, s), m) == CountAtMost([x] + s, m)
    ensures CountAtLeast(Insert(x, s), m) == CountAtLeast([x] + s, m)
  {
    assert ([x] + s)[1..] == s;
    if s != [] && x > s[0] {
      CountsOfInsert(x, s[1..], m);
      assert ([x] + s[1..])[1..] == s[1..];
      assert Insert(x, s)[1..] == Insert(x, s[1..]);
    }
  }

  lemma {:induction false} CountsOfSort(s: seq<real>, m: real)
    ensures CountAtMost(Sort(s), m) == CountAtMost(s, m) && CountAtLeast(Sort(s), m) == CountAtLeast(s, m)
  {
    if s != [] {
      CountsOfSort(s[1..], m);
      CountsOfInsert(s[0], Sort(s[1..]), m);
      assert ([s[0]] + Sort(s[1..]))[1..] == Sort(s[1..]);
    }
  }

  lemma {:induction false} SortedCounts(s: seq<real>, m: real, k: nat)
    requires Sorted(s) && k < |s|
    ensures s[k] <= m ==> CountAtMost(s, m) >= k + 1
    ensures s[k] >= m ==> CountAtLeast(s, m) >= |s| - k
  {
    if k > 0 {
      SortedCounts(s[1..], m, k - 1);
    } else if |s| > 1 {
      SortedCounts(s[1..], m, 0);
    }
  }

  /** At least half of the values are at most the median, at least half are at least it, and it
      lies between the minimum and every upper bound of the values. */
  lemma MedianIsCentral(values: seq<real>, top: real)
    requires values != [] && forall k :: 0 <= k < |values| ==> values[k] <= top
    ensures 2 * CountAtMost(values, Median(values)) >= |values|
    ensures 2 * CountAtLeast(values, Median(values)) >= |values|
    ensures Least(values) <= Median(values) <= top
  {
    var s, n := Sort(values), |values|;
    SortSorts(values);
    assert s[n / 2] in multiset(values);
    MiddleIsCentral(s);
    CountsOfSort(values, Median(values));
  }

  lemma MiddleIsCentral(s: seq<real>)
    requires Sorted(s) && s != []
    ensures 2 * CountAtMost(s, Middle(s)) >= |s| && 2 * CountAtLeast(s, Middle(s)) >= |s|
    ensures s[0] <= Middle(s) <= s[|s| / 2]
  {
    var n, m := |s|, Middle(s);
    if n % 2 == 1 {
      SortedCounts(s, m, n / 2);
    } else {
      assert s[n / 2 - 1] <= m <= s[n / 2];
      SortedCounts(s, m, n / 2 - 1);
      SortedCounts(s, m, n / 2);
    }
  }

  // ---- Monotone and independent of the order ----

  ghost predicate Below(xs: seq<real>, ys: seq<real>) {
    |xs| == |ys| && forall k :: 0 <= k < |xs| ==> xs[k] <= ys[k]
  }

  lemma {:induction false} InsertMonotone(x: real, y: real, s: seq<real>, t: seq<real>)
    requires Sorted(s) && Sorted(t) && x <= y && Below(s, t)
    ensures Below(Insert(x, s), Insert(y, t))
    decreases |s|
  {
    if s != [] {
      if x <= s[0] && y <= t[0] {
        PrependBelow(x, y, s, t);
      } else if x <= s[0] {
        InsertMonotone(s[0], y, s[1..], t[1..]);
        InsertFirst(s);
        PrependBelow(x, t[0], s, Insert(y, t[1..]));
      } else if y <= t[0] {
        InsertMonotone(x, t[0], s[1..], t[1..]);
        InsertFirst(t);
        PrependBelow(s[0], y, Insert(x, s[1..]), t);
      } else {
        InsertMonotone(x, y, s[1..], t[1..]);
        PrependBelow(s[0], t[0], Insert(x, s[1..]), Insert(y, t[1..]));
      }
    }
  }

  lemma PrependBelow(x: real, y: real, s: seq<real>, t: seq<real>)
    requires x <= y && Below(s, t)
    ensures Below([x] + s, [y] + t)
  {}

  lemma InsertFirst(s: seq<real>)
    requires Sorted(s) && s != []
    ensures Insert(s[0], s[1..]) == s
  {
    assert s == [s[0]] + s[1..];
  }

  lemma {:induction false} SortMonotone(xs: seq<real>, ys: seq<real>)
    requires Below(xs, ys)
    ensures Below(Sort(xs), Sort(ys))
  {
    if xs != [] {
      SortMonotone(xs[1..], ys[1..]);
      SortSorts(xs[1..]);
      SortSorts(ys[1..]);
      InsertMonotone(xs[0], ys[0], Sort(xs[1..]), Sort(ys[1..]));
    }
  }

  /** Raising prices pointwise lowers neither the median nor the minimum. */
  lemma StatsMonotone(xs: seq<real>, ys: seq<real>)
    requires Below(xs, ys)
    ensures Median(xs) <= Median(ys) && Least(xs) <= Least(ys)
  {
    SortMonotone(xs, ys);
    MiddleMonotone(Sort(xs), Sort(ys));
  }

  lemma MiddleMonotone(s: seq<real>, t: seq<real>)
    requires Below(s, t)
    ensures Middle(s) <= Middle(t) && (s != [] ==> s[0] <= t[0])
  {}

  lemma StatsIgnoreOrder(xs: seq<real>, ys: seq<real>)
    requires multiset(xs) == multiset(ys)
    ensures Median(xs) == Median(ys) && Least(xs) == Least(ys)
  {
    SortSorts(xs);
    SortSorts(ys);
    SortedIsUnique(Sort(xs), Sort(ys));
    assert |xs| == |multiset(xs)| == |multiset(ys)| == |ys|;
  }

  // ---- The database's side ----

  datatype Stats = Stats(count: nat, min: Option<real>, median: Option<real>)

  /** Reads rows that the query has ordered by price; the figures are the calculator's own for
      the same prices in any order. */
  method CollectPriceStats(rows: seq<real>) returns (out: Stats)
    requires Sorted(rows)
    ensures rows == [] ==> out == Stats(0, None, None)
    ensures forall values :: multiset(values) == multiset(rows) && values != [] ==>
              out == Stats(|values|, Some(Least(values)), Some(Median(values)))
  {
    var prices := [];
    for k := 0 to |rows|
      invariant prices == rows[..k]
    {
      prices := prices + [rows[k]];
    }
    assert prices == rows;
    if prices == [] {
      assert forall values: seq<real> :: multiset(values) == multiset(rows) ==> |values| == |multiset(rows)|;
      return Stats(0, None, None);
    }
    var n := |prices|;
    var median := if n % 2 == 1 then prices[n / 2] else (prices[n / 2 - 1] + prices[n / 2]) / 2.0;
    out := Stats(n, Some(prices[0]), Some(median));
    forall values | multiset(values) == multiset(rows) && values != []
      ensures out == Stats(|values|, Some(Least(values)), Some(Median(values)))
    {
      OrderedRows(rows, values);
    }
  }

  lemma OrderedRows(rows: seq<real>, values: seq<real>)
    requires Sorted(rows) && multiset(values) == multiset(rows)
    ensures Sort(values) == rows && |values| == |rows|
  {
    SortSorts(values);
    SortedIsUnique(Sort(values), rows);
  }
}
