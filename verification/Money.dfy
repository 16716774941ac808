/** Amounts of money: exact reals, rounded to kopecks half away from zero, as `math.Round` and the
    database columns of type NUMERIC(12, 2) do. */
module Money {
  function RoundMoney(v: real): real {
    if v >= 0.0 then (v * 100.0 + 0.5).Floor as real / 100.0
    else -((-v * 100.0 + 0.5).Floor as real / 100.0)
  }

  predicate WholeKopecks(v: real) {
    (v * 100.0).Floor as real == v * 100.0
  }

  lemma RoundMonotone(a: real, b: real)
    requires a <= b
    ensures RoundMoney(a) <= RoundMoney(b)
  {
    if a >= 0.0 {
      FloorMonotone(a * 100.0 + 0.5, b * 100.0 + 0.5);
    } else if b < 0.0 {
      FloorMonotone(-b * 100.0 + 0.5, -a * 100.0 + 0.5);
    }
  }

  lemma FloorMonotone(a: real, b: real)
    requires a <= b
    ensures a.Floor <= b.Floor
  {}

  lemma RoundedIsNear(v: real)
    ensures WholeKopecks(RoundMoney(v))
    ensures v - 0.005 <= RoundMoney(v) <= v + 0.005
    ensures if v >= 0.0 then v - 0.005 < RoundMoney(v) else RoundMoney(v) < v + 0.005
    ensures WholeKopecks(v) ==> RoundMoney(v) == v
  {
    var k := if v >= 0.0 then (v * 100.0 + 0.5).Floor else -((-v * 100.0 + 0.5).Floor);
    Kopecks(RoundMoney(v), k);
    if WholeKopecks(v) { WholeIsKept(v, (v * 100.0).Floor); }
  }

  lemma Kopecks(v: real, k: int)
    requires v == k as real / 100.0
    ensures WholeKopecks(v) && v * 100.0 == k as real
  {}

  lemma WholeIsKept(v: real, n: int)
    requires v * 100.0 == n as real
    ensures RoundMoney(v) == v
  {
    assert (n as real + 0.5).Floor == n;
    assert (-n as real + 0.5).Floor == -n;
  }
}
