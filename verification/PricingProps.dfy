/** What the calculator promises: which bound gives way to which, monotone and order-free prices,
    and what repeated recalculation with a fixed strategy converges to. */
module PricingProps {
  import opened Basics
  import opened PriceStats
  import opened Money
  import opened Calculator

  // ---- The result in terms of the product, the strategy and the sorted competitors ----

  ghost predicate CostGiven(p: Product) {
    p.costPrice.Some? && p.costPrice.value > 0.0
  }

  ghost predicate Applies(f: Formula, p: Product, xs: seq<real>) {
    match f
    case Fixed(_) => true
    case BelowMedianPct(_) => xs != []
    case MinCompetitorPlusStep(_) => xs != []
    case MinMarginPct(_) => CostGiven(p)
  }

  /** What a formula asks for; `t` are the competitors in order. */
  ghost predicate IsTarget(f: Formula, p: Product, t: seq<real>, target: real) {
    match f
    case Fixed(value) => target == value
    case BelowMedianPct(pct) => exists m :: InTheMiddle(t, m) && target == Lowered(m, pct)
    case MinCompetitorPlusStep(step) => t != [] && target == t[0] + step
    case MinMarginPct(pct) => CostGiven(p) && target == Raised(p.costPrice.value, pct)
  }

  /** The documented order of the bounds, one after the other. */
  ghost function Bounded(p: Product, c: Constraints, target: real): real {
    var cost := if CostGiven(p) then p.costPrice.value else 0.0;
    var pct := if c.minProfitPct.Some? then Raised(cost, c.minProfitPct.value) else 0.0;
    var abs := if c.minProfitAbs.Some? then cost + c.minProfitAbs.value else 0.0;
    var delta := if c.maxChangePct.Some? then Share(p.currentPrice, c.maxChangePct.value) else 0.0;
    OneByOne(p, c, target, cost, pct, abs, delta)
  }

  ghost function OneByOne(p: Product, c: Constraints, target: real, cost: real, pct: real, abs: real,
                          delta: real): real {
    var a := if CostGiven(p) && target < cost then cost else target;
    var b := if CostGiven(p) && c.minProfitPct.Some? && a < pct then pct else a;
    var d := if CostGiven(p) && c.minProfitAbs.Some? && b < abs then abs else b;
    var e := if c.maxPrice.Some? && d > c.maxPrice.value then c.maxPrice.value else d;
    var f := if c.minPrice.Some? && e < c.minPrice.value then c.minPrice.value else e;
    var g := if c.maxChangePct.None? then f
             else if f > p.currentPrice + delta then p.currentPrice + delta
             else if f < p.currentPrice - delta then p.currentPrice - delta
             else f;
    if CostGiven(p) && g < cost then cost else g
  }

  lemma UnroundedIsBounded(p: Product, c: Constraints, target: real)
    ensures Unrounded(c, CostPriceOrNil(p), p.currentPrice, target) == Bounded(p, c, target)
  {
    var cost := CostPriceOrNil(p);
    var floor := ProfitFloor(c, cost);
    if CostGiven(p) {
      ProfitInOrder(c, p.costPrice.value, target, ByPct(c, p.costPrice.value), ByAbs(c, p.costPrice.value));
    }
    var price := if CostGiven(p) then p.costPrice.value else 0.0;
    var pct := if c.minProfitPct.Some? then Raised(price, c.minProfitPct.value) else 0.0;
    var abs := if c.minProfitAbs.Some? then price + c.minProfitAbs.value else 0.0;
    var delta := if c.maxChangePct.Some? then Share(p.currentPrice, c.maxChangePct.value) else 0.0;
    BoundsInOrder(p, c, target, AtLeast(floor, target), ChangeBounds(c, p.currentPrice), pct, abs, delta);
  }

  lemma BoundsInOrder(p: Product, c: Constraints, target: real, profited: real, change: Option<(real, real)>,
                      pct: real, abs: real, delta: real)
    requires CostGiven(p) ==>
               var a := if target < p.costPrice.value then p.costPrice.value else target;
               var b := if c.minProfitPct.Some? && a < pct then pct else a;
               profited == if c.minProfitAbs.Some? && b < abs then abs else b
    requires !CostGiven(p) ==> profited == target
    requires change == if c.maxChangePct.Some? then Some((p.currentPrice - delta, p.currentPrice + delta)) else None
    requires c.maxChangePct.Some? || delta == 0.0
    ensures AtLeast(CostPriceOrNil(p), LimitChange(change, AtLeast(c.minPrice, AtMost(c.maxPrice, profited))))
            == OneByOne(p, c, target, if CostGiven(p) then p.costPrice.value else 0.0, pct, abs, delta)
  {}

  lemma ProfitInOrder(c: Constraints, cost: real, target: real, pct: real, abs: real)
    requires pct == ByPct(c, cost) && abs == ByAbs(c, cost)
    ensures var a := if target < cost then cost else target;
      var b := if c.minProfitPct.Some? && a < pct then pct else a;
      AtLeast(ProfitFloor(c, Some(cost)), target) == if c.minProfitAbs.Some? && b < abs then abs else b
  {}

  /** A product is priced exactly when it can be and its formula applies; and then target and price are
      the rounded ones of the formula. */
  lemma PricedExactly(p: Product, s: Option<Strategy>, xs: seq<real>)
    ensures Calculated(p, s, xs).status.Pending? <==>
            && (p.currency == "" || p.currency == "RUB") && !p.archived && p.currentPrice > 0.0
            && s.Some? && s.value.enabled && Applies(s.value.formula, p, xs)
  {}

  lemma PriceSpelledOut(p: Product, s: Strategy, xs: seq<real>, t: seq<real>, target: real)
    requires Calculated(p, Some(s), xs).status.Pending?
    requires Sorted(t) && multiset(t) == multiset(xs) && IsTarget(s.formula, p, t, target)
    ensures Calculated(p, Some(s), xs).targetPrice == RoundMoney(target)
    ensures Calculated(p, Some(s), xs).finalPrice == RoundMoney(Bounded(p, s.constraints, target))
    ensures Calculated(p, Some(s), xs).hit == HitOf(s.constraints, CostPriceOrNil(p), p.currentPrice, target)
  {
    TargetIs(s.formula, p, xs, t, target);
    UnroundedIsBounded(p, s.constraints, target);
    PricedIs(p, s, target);
  }

  lemma PricedIs(p: Product, s: Strategy, target: real)
    ensures Priced(p, s, Some(target)).targetPrice == RoundMoney(target)
    ensures Priced(p, s, Some(target)).finalPrice
            == RoundMoney(Unrounded(s.constraints, CostPriceOrNil(p), p.currentPrice, target))
    ensures Priced(p, s, Some(target)).hit == HitOf(s.constraints, CostPriceOrNil(p), p.currentPrice, target)
  {}

  lemma TargetIs(f: Formula, p: Product, xs: seq<real>, t: seq<real>, target: real)
    requires Applies(f, p, xs) && Sorted(t) && multiset(t) == multiset(xs) && IsTarget(f, p, t, target)
    ensures ComputeTarget(f, CostPriceOrNil(p), xs) == Some(target)
  {
    assert |t| == |multiset(t)| == |multiset(xs)| == |xs|;
    MedianIsInTheMiddle(xs, t);
    match f
    case BelowMedianPct(pct) =>
      var m :| InTheMiddle(t, m) && target == Lowered(m, pct);
      assert m == Median(xs);
    case _ =>
  }

  ghost function FallbackOf(p: Product, fallback: FallbackPolicy, c: Constraints): real {
    match fallback
    case SetFixed =>
      if c.fallbackPrice.Some? && c.fallbackPrice.value > 0.0 then c.fallbackPrice.value
      else if c.minPrice.Some? then c.minPrice.value
      else p.currentPrice
    case SetMin => if c.minPrice.Some? then c.minPrice.value else p.currentPrice
    case _ => p.currentPrice
  }

  /** Where no formula applies, the price is the fallback's, but not below the cost; a product that
      cannot be priced at all gets none. */
  lemma FallbackSpelledOut(p: Product, s: Strategy, xs: seq<real>)
    requires Calculated(p, Some(s), xs).status.Skipped?
    ensures var r, x := Calculated(p, Some(s), xs), FallbackOf(p, s.fallback, s.constraints);
      && r.targetPrice == 0.0 && r.hit.NoHit?
      && r.finalPrice ==
           if !s.enabled || p.archived || p.currentPrice <= 0.0 || (p.currency != "" && p.currency != "RUB") then 0.0
           else if CostGiven(p) && x < p.costPrice.value then RoundMoney(p.costPrice.value)
           else RoundMoney(x)
  {}

  // ---- Bounds and their priority ----

  /** The target already meets every bound. */
  predicate Fits(c: Constraints, cost: Option<real>, current: real, target: real) {
    && (cost.Some? ==> target >= ProfitFloor(c, cost).value)
    && (c.maxPrice.Some? ==> target <= c.maxPrice.value)
    && (c.minPrice.Some? ==> target >= c.minPrice.value)
    && (c.maxChangePct.Some? ==>
          ChangeBounds(c, current).value.0 <= target <= ChangeBounds(c, current).value.1)
  }

  lemma BoundsAreOrdered(c: Constraints, current: real)
    requires ValidConstraints(c) && current > 0.0 && c.maxChangePct.Some?
    ensures ChangeBounds(c, current).value.0 <= current <= ChangeBounds(c, current).value.1
  {
    assert current * (c.maxChangePct.value / 100.0) >= 0.0;
  }

  /** The cost is never broken; the change limit only by the cost; the price range only by the
      change limit or the cost; the profit rules only by one of those. */
  lemma BoundsGiveWayInOrder(c: Constraints, cost: Option<real>, current: real, target: real)
    requires ValidConstraints(c) && current > 0.0
    ensures var f, change := Unrounded(c, cost, current, target), ChangeBounds(c, current);
      && (cost.Some? ==> f >= cost.value)
      && (change.Some? ==> change.value.0 <= f)
      && (change.Some? && f > change.value.1 ==> cost == Some(f))
      && (c.minPrice.Some? && f < c.minPrice.value ==> change.Some? && f == AtLeast(cost, change.value.1))
      && (c.maxPrice.Some? && f > c.maxPrice.value ==> cost == Some(f) || (change.Some? && f == change.value.0))
      && (cost.Some? && f < ProfitFloor(c, cost).value ==>
            || cost == Some(f) || (change.Some? && f == change.value.1) || c.maxPrice == Some(f)
            || (c.maxPrice.Some? && c.maxPrice.value < f && change.Some? && f == change.value.0))
  {
    if c.maxChangePct.Some? {
      BoundsAreOrdered(c, current);
    }
    RulesGiveWayInOrder(c, cost, ChangeBounds(c, current), ProfitFloor(c, cost), target);
  }

  lemma RulesGiveWayInOrder(c: Constraints, cost: Option<real>, change: Option<(real, real)>, floor: Option<real>,
                            target: real)
    requires ValidConstraints(c) && (change.Some? ==> change.value.0 <= change.value.1)
    ensures var f := AtLeast(cost, LimitChange(change, AtLeast(c.minPrice,
              AtMost(c.maxPrice, AtLeast(floor, target)))));
      && (change.Some? ==> change.value.0 <= f)
      && (change.Some? && f > change.value.1 ==> cost == Some(f))
      && (c.minPrice.Some? && f < c.minPrice.value ==> change.Some? && f == AtLeast(cost, change.value.1))
      && (c.maxPrice.Some? && f > c.maxPrice.value ==> cost == Some(f) || (change.Some? && f == change.value.0))
      && (floor.Some? && f < floor.value ==>
            || cost == Some(f) || (change.Some? && f == change.value.1) || c.maxPrice == Some(f)
            || (c.maxPrice.Some? && c.maxPrice.value < f && change.Some? && f == change.value.0))
  {}

  /** No bound is reported exactly when the target meets them all, and then the target stands;
      a reported bound is the one the final price sits on. */
  lemma HitNamesTheBound(c: Constraints, cost: Option<real>, current: real, target: real)
    requires ValidConstraints(c) && current > 0.0
    ensures HitOf(c, cost, current, target).NoHit? <==> Fits(c, cost, current, target)
    ensures var f, change := Unrounded(c, cost, current, target), ChangeBounds(c, current);
      match HitOf(c, cost, current, target)
      case NoHit => f == target
      case CostPriceFloor => cost == Some(f)
      case MinProfitPct => cost.Some? && c.minProfitPct.Some? && f == ByPct(c, cost.value)
      case MinProfitAbs => cost.Some? && c.minProfitAbs.Some? && f == ByAbs(c, cost.value)
      case MaxPrice => c.maxPrice == Some(f)
      case MinPrice => c.minPrice == Some(f)
      case MaxChangePct => change.Some? && (f == change.value.0 || f == change.value.1)
  {
    var profited, before := AtLeast(ProfitFloor(c, cost), target), ProfitHit(c, cost, target);
    ProfitHitNamesTheRule(c, cost, target);
    if c.maxChangePct.Some? {
      BoundsAreOrdered(c, current);
    }
    LaterHitNamesTheBound(c, cost, ChangeBounds(c, current), profited, before);
  }

  lemma ProfitHitNamesTheRule(c: Constraints, cost: Option<real>, target: real)
    requires ValidConstraints(c)
    ensures var profited := AtLeast(ProfitFloor(c, cost), target);
      match ProfitHit(c, cost, target)
      case NoHit => profited == target && (cost.Some? ==> ProfitFloor(c, cost).value <= target)
      case CostPriceFloor => cost == Some(profited) && target < profited
      case MinProfitPct => cost.Some? && c.minProfitPct.Some? && profited == ByPct(c, cost.value) && target < profited
      case MinProfitAbs => cost.Some? && c.minProfitAbs.Some? && profited == ByAbs(c, cost.value) && target < profited
      case _ => false
    ensures cost.Some? ==> AtLeast(ProfitFloor(c, cost), target) >= cost.value
  {
    if cost.Some? {
      RulesOfProfit(c, cost.value, ByPct(c, cost.value), ByAbs(c, cost.value));
    }
  }

  lemma RulesOfProfit(c: Constraints, cost: real, pct: real, abs: real)
    requires pct == ByPct(c, cost) && abs == ByAbs(c, cost)
    ensures c.minProfitPct.None? ==> pct == cost
    ensures c.minProfitAbs.None? ==> abs == cost
  {}

  /** With the profit rules applied first, whichever later bound moved the price is where it sits. */
  lemma LaterHitNamesTheBound(c: Constraints, cost: Option<real>, change: Option<(real, real)>, profited: real,
                              before: Hit)
    requires ValidConstraints(c) && (change.Some? ==> change.value.0 <= change.value.1)
    requires cost.Some? ==> cost.value <= profited
    ensures var f := AtLeast(cost, LimitChange(change, AtLeast(c.minPrice, AtMost(c.maxPrice, profited))));
      var free := (c.maxPrice.Some? ==> profited <= c.maxPrice.value) &&
          (c.minPrice.Some? ==> profited >= c.minPrice.value)
                  && (change.Some? ==> change.value.0 <= profited <= change.value.1);
      var hit := HitAfter(c, cost, change, profited, before);
      && (free ==> hit == before && f == profited)
      && (!free ==> match hit
                    case CostPriceFloor => cost == Some(f)
                    case MaxPrice => c.maxPrice == Some(f)
                    case MinPrice => c.minPrice == Some(f)
                    case MaxChangePct => change.Some? && (f == change.value.0 || f == change.value.1)
                    case _ => false)
  {}

  /** Rounding cannot take a price below a cost in whole kopecks, and otherwise by at most half a
      kopeck; this covers the fallback prices too. */
  lemma NeverBelowCost(p: Product, s: Strategy, xs: seq<real>)
    requires Priceable(p, Some(s)) && CostPriceOrNil(p).Some?
    ensures var f := Calculated(p, Some(s), xs).finalPrice;
      f >= p.costPrice.value - 0.005 && (WholeKopecks(p.costPrice.value) ==> f >= p.costPrice.value)
  {
    var cost, c := CostPriceOrNil(p), s.constraints;
    var target := ComputeTarget(s.formula, cost, xs);
    var u := if target.None? then AtLeast(cost, FallbackPrice(p, s))
             else Unrounded(c, cost, p.currentPrice, target.value);
    RoundedIsNear(u);
    RoundedIsNear(cost.value);
    RoundMonotone(cost.value, u);
  }

  // ---- Monotone in competitors and cost ----

  ghost predicate CostRaised(a: Option<real>, b: Option<real>) {
    a.Some? ==> b.Some? && a.value <= b.value
  }

  lemma ProductMonotone(x: real, y: real, k: real)
    requires x <= y && k >= 0.0
    ensures x * k <= y * k
  {
    assert (y - x) * k >= 0.0;
  }

  lemma ScaleMonotone(x: real, y: real, pct: real)
    requires x <= y && pct >= 0.0
    ensures Raised(x, pct) <= Raised(y, pct)
  {
    ProductMonotone(x, y, 1.0 + pct / 100.0);
  }

  lemma LowerMonotone(x: real, y: real, pct: real)
    requires x <= y && 0.0 <= pct <= 100.0
    ensures Lowered(x, pct) <= Lowered(y, pct)
  {
    ProductMonotone(x, y, 1.0 - pct / 100.0);
  }

  lemma ProfitMonotone(c: Constraints, a: Option<real>, b: Option<real>)
    requires ValidConstraints(c) && CostRaised(a, b)
    ensures a.Some? ==> ProfitFloor(c, a).value <= ProfitFloor(c, b).value
  {
    if a.Some? && c.minProfitPct.Some? {
      ScaleMonotone(a.value, b.value, c.minProfitPct.value);
    }
  }

  lemma ChainMonotone(c: Constraints, a: Option<real>, b: Option<real>, current: real, x: real, y: real)
    requires ValidConstraints(c) && CostRaised(a, b) && current > 0.0 && x <= y
    ensures Unrounded(c, a, current, x) <= Unrounded(c, b, current, y)
  {
    ProfitMonotone(c, a, b);
    assert AtLeast(ProfitFloor(c, a), x) <= AtLeast(ProfitFloor(c, b), y);
    assert Wanted(c, a, x) <= Wanted(c, b, y);
    if c.maxChangePct.Some? {
      BoundsAreOrdered(c, current);
    }
  }

  lemma TargetMonotone(f: Formula, a: Option<real>, b: Option<real>, xs: seq<real>, ys: seq<real>)
    requires ValidParams(f) && CostRaised(a, b) && Below(xs, ys)
    ensures var t, u := ComputeTarget(f, a, xs), ComputeTarget(f, b, ys);
      && (t.Some? ==> u.Some? && t.value <= u.value)
      && (u.Some? && t.None? ==> f.MinMarginPct? && a.None? && b.Some?)
  {
    StatsMonotone(xs, ys);
    match f
    case BelowMedianPct(pct) =>
      LowerMonotone(Median(xs), Median(ys), pct);
    case MinMarginPct(pct) =>
      if a.Some? { ScaleMonotone(a.value, b.value, pct); }
    case _ =>
  }

  function WithCost(p: Product, cost: Option<real>): Product {
    p.(costPrice := cost)
  }

  /** Dearer competitors or a higher cost never lower the price, unless a cost is given for the
      first time to a margin strategy, which then stops using its fallback price. */
  lemma FinalPriceMonotone(p: Product, cost: Option<real>, s: Option<Strategy>, xs: seq<real>, ys: seq<real>)
    requires s.Some? ==> ValidStrategy(s.value)
    requires CostRaised(CostPriceOrNil(p), CostPriceOrNil(WithCost(p, cost))) && Below(xs, ys)
    requires !(s.Some? && s.value.formula.MinMarginPct? && CostPriceOrNil(p).None?
               && CostPriceOrNil(WithCost(p, cost)).Some?)
    ensures Calculated(p, s, xs).finalPrice <= Calculated(WithCost(p, cost), s, ys).finalPrice
  {
    if Priceable(p, s) {
      var a, b, c := CostPriceOrNil(p), CostPriceOrNil(WithCost(p, cost)), s.value.constraints;
      TargetMonotone(s.value.formula, a, b, xs, ys);
      var t, u := ComputeTarget(s.value.formula, a, xs), ComputeTarget(s.value.formula, b, ys);
      if t.Some? {
        ChainMonotone(c, a, b, p.currentPrice, t.value, u.value);
        RoundMonotone(Unrounded(c, a, p.currentPrice, t.value), Unrounded(c, b, p.currentPrice, u.value));
      } else {
        var f := FallbackPrice(p, s.value);
        assert u.None? && FallbackPrice(WithCost(p, cost), s.value) == f;
        RoundMonotone(AtLeast(a, f), AtLeast(b, f));
      }
    }
  }

  // ---- When a first cost lowers a margin strategy's price ----

  /** What the bounds make of a product whose cost is next to nothing. */
  function CheapestPrice(c: Constraints, current: real): real {
    LimitChange(ChangeBounds(c, current),
                AtLeast(c.minPrice, AtMost(c.maxPrice, if c.minProfitAbs.Some? then c.minProfitAbs.value else 0.0)))
  }

  /** Some first cost lowers the price of a margin strategy exactly when the cheapest price the
      bounds allow rounds to less than the fallback price it used so far. */
  lemma FirstCostLowersThePrice(p: Product, s: Strategy, xs: seq<real>)
    requires ValidStrategy(s) && Priceable(p, Some(s)) && s.formula.MinMarginPct? && CostPriceOrNil(p).None?
    ensures (exists x :: x > 0.0 &&
               Calculated(WithCost(p, Some(x)), Some(s), xs).finalPrice < Calculated(p, Some(s), xs).finalPrice)
            <==> RoundMoney(CheapestPrice(s.constraints, p.currentPrice)) < RoundMoney(FallbackPrice(p, s))
  {
    var c, pct, least := s.constraints, s.formula.marginPct, CheapestPrice(s.constraints, p.currentPrice);
    forall x | x > 0.0
      ensures RoundMoney(least) <= Calculated(WithCost(p, Some(x)), Some(s), xs).finalPrice
    {
      RaisedIsMore(x, pct);
      CheapestIsLeast(c, p.currentPrice, x, Raised(x, pct));
      RoundMonotone(least, Unrounded(c, Some(x), p.currentPrice, Raised(x, pct)));
      MarginPrice(p, s, xs, x);
    }
    var x := TinyCost(c, p.currentPrice, pct);
    MarginPrice(p, s, xs, x);
    assert Calculated(WithCost(p, Some(x)), Some(s), xs).finalPrice == RoundMoney(least);
  }

  lemma RaisedIsMore(x: real, pct: real)
    requires x > 0.0 && pct >= 0.0
    ensures Raised(x, pct) >= x
  {
    assert x * (pct / 100.0) >= 0.0;
  }

  lemma MarginPrice(p: Product, s: Strategy, xs: seq<real>, x: real)
    requires ValidStrategy(s) && Priceable(p, Some(s)) && s.formula.MinMarginPct? && x > 0.0
    ensures Calculated(WithCost(p, Some(x)), Some(s), xs).finalPrice
            == RoundMoney(Unrounded(s.constraints, Some(x), p.currentPrice, Raised(x, s.formula.marginPct)))
  {
    assert ComputeTarget(s.formula, Some(x), xs) == Some(Raised(x, s.formula.marginPct));
    PricedAt(WithCost(p, Some(x)), s, Raised(x, s.formula.marginPct));
  }

  lemma PricedAt(p: Product, s: Strategy, target: real)
    ensures Priced(p, s, Some(target)).finalPrice
            == RoundMoney(Unrounded(s.constraints, CostPriceOrNil(p), p.currentPrice, target))
  {}

  lemma CheapestIsLeast(c: Constraints, current: real, x: real, target: real)
    requires ValidConstraints(c) && current > 0.0 && x > 0.0 && target >= x
    ensures 0.0 <= CheapestPrice(c, current) <= Unrounded(c, Some(x), current, target)
  {
    if c.maxChangePct.Some? {
      BoundsAreOrdered(c, current);
    }
    CheapestOfBounds(c, ChangeBounds(c, current), Some(x), AtLeast(ProfitFloor(c, Some(x)), target));
  }

  lemma CheapestOfBounds(c: Constraints, change: Option<(real, real)>, cost: Option<real>, profited: real)
    requires ValidConstraints(c) && (change.Some? ==> change.value.0 <= change.value.1 && 0.0 <= change.value.1)
    requires profited >= if c.minProfitAbs.Some? then c.minProfitAbs.value else 0.0
    ensures var abs := if c.minProfitAbs.Some? then c.minProfitAbs.value else 0.0;
      0.0 <= LimitChange(change, AtLeast(c.minPrice, AtMost(c.maxPrice, abs)))
      <= AtLeast(cost, LimitChange(change, AtLeast(c.minPrice, AtMost(c.maxPrice, profited))))
  {}

  /** A cost so small that rounding hides it. */
  lemma TinyCost(c: Constraints, current: real, pct: real) returns (x: real)
    requires ValidConstraints(c) && current > 0.0 && pct >= 0.0
    ensures x > 0.0
    ensures RoundMoney(Unrounded(c, Some(x), current, Raised(x, pct))) == RoundMoney(CheapestPrice(c, current))
  {
    var least := CheapestPrice(c, current);
    CheapestIsLeast(c, current, 1.0, 1.0);
    var room := RoomToRound(least);
    var profit := if c.minProfitPct.Some? then c.minProfitPct.value else 0.0;
    var grow;
    x, grow := Portion(room, pct, profit);
    CheapestIsLeast(c, current, x, Raised(x, pct));
    GrowsSlowly(c, current, x, pct, profit, grow);
  }

  lemma RoomToRound(v: real) returns (room: real)
    requires v >= 0.0
    ensures room > 0.0
    ensures forall u :: v <= u < v + room ==> RoundMoney(u) == RoundMoney(v)
  {
    var k := (v * 100.0 + 0.5).Floor;
    room := (k as real + 0.5) / 100.0 - v;
    forall u | v <= u < v + room ensures RoundMoney(u) == RoundMoney(v) {
      assert (u * 100.0 + 0.5).Floor == k;
    }
  }

  lemma Portion(room: real, pct: real, profit: real) returns (x: real, grow: real)
    requires room > 0.0 && pct >= 0.0 && profit >= 0.0
    ensures 0.0 < x <= Raised(x, pct) <= grow < room && Raised(x, profit) <= grow
  {
    var scale := 1.0 + pct / 100.0 + profit / 100.0;
    x := room / (2.0 * scale);
    assert x * (2.0 * scale) == room;
    grow := x * scale;
    Parts(x, pct, profit);
  }

  lemma Parts(x: real, pct: real, profit: real)
    requires x > 0.0 && pct >= 0.0 && profit >= 0.0
    ensures var grow := x * (1.0 + pct / 100.0 + profit / 100.0);
      x <= Raised(x, pct) <= grow && x <= Raised(x, profit) <= grow
  {
    var a, b := x * (pct / 100.0), x * (profit / 100.0);
    assert a >= 0.0 && b >= 0.0;
    assert x * (1.0 + pct / 100.0 + profit / 100.0) == x + a + b;
    assert x * (1.0 + pct / 100.0) == x + a && x * (1.0 + profit / 100.0) == x + b;
  }

  lemma GrowsSlowly(c: Constraints, current: real, x: real, pct: real, profit: real, grow: real)
    requires ValidConstraints(c) && current > 0.0 && 0.0 < x <= Raised(x, pct) <= grow && Raised(x, profit) <= grow
    requires profit == if c.minProfitPct.Some? then c.minProfitPct.value else 0.0
    ensures Unrounded(c, Some(x), current, Raised(x, pct)) <= CheapestPrice(c, current) + grow
  {
    ProfitGrowsSlowly(c, x, Raised(x, pct), profit, grow);
    if c.maxChangePct.Some? {
      BoundsAreOrdered(c, current);
    }
    BoundsGrowSlowly(c, ChangeBounds(c, current), x, AtLeast(ProfitFloor(c, Some(x)), Raised(x, pct)), grow);
  }

  lemma ProfitGrowsSlowly(c: Constraints, x: real, target: real, profit: real, grow: real)
    requires ValidConstraints(c) && 0.0 < x <= target <= grow
    requires profit == if c.minProfitPct.Some? then c.minProfitPct.value else 0.0
    requires Raised(x, profit) <= grow
    ensures AtLeast(ProfitFloor(c, Some(x)), target) <= (if c.minProfitAbs.Some? then c.minProfitAbs.value else 0.0)
              + grow
  {
    assert ByPct(c, x) <= grow;
  }

  lemma BoundsGrowSlowly(c: Constraints, change: Option<(real, real)>, x: real, profited: real, grow: real)
    requires ValidConstraints(c) && (change.Some? ==> change.value.0 <= change.value.1 && 0.0 <= change.value.1)
    requires 0.0 < x <= grow
    requires profited <= (if c.minProfitAbs.Some? then c.minProfitAbs.value else 0.0) + grow
    ensures var abs := if c.minProfitAbs.Some? then c.minProfitAbs.value else 0.0;
      AtLeast(Some(x), LimitChange(change, AtLeast(c.minPrice, AtMost(c.maxPrice, profited))))
      <= LimitChange(change, AtLeast(c.minPrice, AtMost(c.maxPrice, abs))) + grow
  {}

  /** The order in which competitors are listed does not matter, to any figure of the result. */
  lemma OrderDoesNotMatter(p: Product, s: Option<Strategy>, xs: seq<real>, ys: seq<real>)
    requires multiset(xs) == multiset(ys)
    ensures Calculated(p, s, xs) == Calculated(p, s, ys)
  {
    StatsIgnoreOrder(xs, ys);
    assert |xs| == |multiset(xs)| == |multiset(ys)| == |ys|;
    if s.Some? {
      TargetIgnoresOrder(s.value.formula, CostPriceOrNil(p), xs, ys);
    }
  }

  lemma TargetIgnoresOrder(f: Formula, cost: Option<real>, xs: seq<real>, ys: seq<real>)
    requires Median(xs) == Median(ys) && Least(xs) == Least(ys) && |xs| == |ys|
    ensures ComputeTarget(f, cost, xs) == ComputeTarget(f, cost, ys)
  {}

  // ---- Repeated recalculation ----

  /** The current price after a recalculation whose pending result is applied. */
  function NextPrice(p: Product, s: Strategy, xs: seq<real>): real {
    var r := Calculated(p, Some(s), xs);
    if r.status.Pending? then r.finalPrice else p.currentPrice
  }

  function PriceAfter(p: Product, s: Strategy, xs: seq<real>, n: nat): real {
    if n == 0 then p.currentPrice
    else NextPrice(p.(currentPrice := PriceAfter(p, s, xs, n - 1)), s, xs)
  }

  /** The price the strategy wants, with no limit on the change. */
  function Goal(p: Product, s: Strategy, xs: seq<real>): real {
    var cost := CostPriceOrNil(p);
    var target := ComputeTarget(s.formula, cost, xs);
    if target.None? then p.currentPrice else RoundMoney(AtLeast(cost, Wanted(s.constraints, cost, target.value)))
  }

  ghost predicate InKopecks(p: Product) {
    WholeKopecks(p.currentPrice) && (CostPriceOrNil(p).Some? ==> WholeKopecks(p.costPrice.value))
  }

  ghost predicate Toward(from: real, next: real, goal: real) {
    (from <= goal ==> from <= next <= goal) && (from >= goal ==> goal <= next <= from)
  }

  lemma StepTowardGoal(p: Product, s: Strategy, xs: seq<real>)
    requires ValidStrategy(s) && InKopecks(p)
    ensures WholeKopecks(NextPrice(p, s, xs))
    ensures Toward(p.currentPrice, NextPrice(p, s, xs), Goal(p, s, xs))
  {
    var cost, c, from := CostPriceOrNil(p), s.constraints, p.currentPrice;
    var target := ComputeTarget(s.formula, cost, xs);
    if Priceable(p, Some(s)) && target.Some? {
      var w, u := Wanted(c, cost, target.value), Unrounded(c, cost, from, target.value);
      RoundedIsNear(u);
      LimitTowardGoal(c, cost, from, w);
    }
  }

  lemma LimitTowardGoal(c: Constraints, cost: Option<real>, from: real, w: real)
    requires ValidConstraints(c) && from > 0.0 && WholeKopecks(from) && (cost.Some? ==> WholeKopecks(cost.value))
    ensures Toward(from, RoundMoney(AtLeast(cost, LimitChange(ChangeBounds(c, from), w))), RoundMoney(AtLeast(cost, w)))
  {
    var u, g := AtLeast(cost, LimitChange(ChangeBounds(c, from), w)), AtLeast(cost, w);
    RoundedIsNear(from);
    if cost.Some? {
      RoundedIsNear(cost.value);
      RoundMonotone(cost.value, g);
    }
    if c.maxChangePct.Some? {
      BoundsAreOrdered(c, from);
    }
    if u <= g { RoundMonotone(u, g); } else { RoundMonotone(g, u); }
    if u <= from { RoundMonotone(u, from); } else { RoundMonotone(from, u); }
  }

  /** From any start, every recalculation moves toward the goal and none passes it. */
  lemma {:induction false} MonotoneTowardGoal(p: Product, s: Strategy, xs: seq<real>, i: nat, j: nat)
    requires ValidStrategy(s) && InKopecks(p) && i <= j
    ensures WholeKopecks(PriceAfter(p, s, xs, j))
    ensures Toward(p.currentPrice, PriceAfter(p, s, xs, i), Goal(p, s, xs))
    ensures Toward(PriceAfter(p, s, xs, i), PriceAfter(p, s, xs, j), Goal(p, s, xs))
    decreases i + j
  {
    if i < j {
      MonotoneTowardGoal(p, s, xs, i, j - 1);
      StepFrom(p, s, xs, j - 1);
    } else if i > 0 {
      MonotoneTowardGoal(p, s, xs, i - 1, i - 1);
      StepFrom(p, s, xs, i - 1);
    }
  }

  lemma StepFrom(p: Product, s: Strategy, xs: seq<real>, n: nat)
    requires ValidStrategy(s) && InKopecks(p) && WholeKopecks(PriceAfter(p, s, xs, n))
    ensures WholeKopecks(PriceAfter(p, s, xs, n + 1))
    ensures Toward(PriceAfter(p, s, xs, n), PriceAfter(p, s, xs, n + 1), Goal(p, s, xs))
  {
    var q := p.(currentPrice := PriceAfter(p, s, xs, n));
    StepTowardGoal(q, s, xs);
  }

  /** The price has stopped short: the change limit rounds back to the current price. */
  predicate Stalled(p: Product, s: Strategy, goal: real) {
    var cost, from := CostPriceOrNil(p), p.currentPrice;
    var change := ChangeBounds(s.constraints, from);
    change.Some? && if from < goal then RoundMoney(change.value.1) == from && AtLeast(cost, from) == from
                    else RoundMoney(change.value.0) == from
  }

  /** Short of the goal, a recalculation leaves the price alone exactly when the change limit is
      below half a kopeck. */
  lemma StallsExactly(p: Product, s: Strategy, xs: seq<real>)
    requires ValidStrategy(s) && InKopecks(p) && Calculated(p, Some(s), xs).status.Pending?
    requires p.currentPrice != Goal(p, s, xs)
    ensures NextPrice(p, s, xs) == p.currentPrice <==> Stalled(p, s, Goal(p, s, xs))
  {
    var cost := CostPriceOrNil(p);
    LimitStalls(s.constraints, cost, p.currentPrice,
                Wanted(s.constraints, cost, ComputeTarget(s.formula, cost, xs).value));
  }

  lemma LimitStalls(c: Constraints, cost: Option<real>, from: real, w: real)
    requires ValidConstraints(c) && from > 0.0 && WholeKopecks(from) && (cost.Some? ==> WholeKopecks(cost.value))
    requires from != RoundMoney(AtLeast(cost, w))
    ensures RoundMoney(AtLeast(cost, LimitChange(ChangeBounds(c, from), w))) == from <==>
            c.maxChangePct.Some? &&
            if from < RoundMoney(AtLeast(cost, w))
            then RoundMoney(ChangeBounds(c, from).value.1) == from && AtLeast(cost, from) == from
            else RoundMoney(ChangeBounds(c, from).value.0) == from
  {
    RoundedIsNear(from);
    if cost.Some? {
      RoundedIsNear(cost.value);
      RoundMonotone(cost.value, AtLeast(cost, w));
    }
    if c.maxChangePct.Some? {
      BoundsAreOrdered(c, from);
      var (lower, upper) := ChangeBounds(c, from).value;
      var g := AtLeast(cost, w);
      if g <= upper { RoundMonotone(g, upper); } else { RoundMonotone(upper, g); }
      if g <= lower { RoundMonotone(g, lower); } else { RoundMonotone(lower, g); }
      if cost.Some? {
        if cost.value <= upper { RoundMonotone(cost.value, upper); } else { RoundMonotone(upper, cost.value); }
        if cost.value <= lower { RoundMonotone(cost.value, lower); } else { RoundMonotone(lower, cost.value); }
      }
    }
  }

  /** Kopecks left to the goal. */
  ghost function Gap(price: real, goal: real): nat {
    var d := (price - goal) * 100.0;
    if d >= 0.0 then d.Floor else (-d).Floor
  }

  /** After at most as many recalculations as there are kopecks to the goal the price is settled for
      good: at the goal, or where the change limit rounds to nothing, or no longer above zero. */
  lemma {:induction false} Settles(p: Product, s: Strategy, xs: seq<real>, n: nat)
    requires ValidStrategy(s) && InKopecks(p) && Priceable(p, Some(s))
    requires ComputeTarget(s.formula, CostPriceOrNil(p), xs).Some? && n >= Gap(p.currentPrice, Goal(p, s, xs))
    ensures var last := PriceAfter(p, s, xs, n);
      && PriceAfter(p, s, xs, n + 1) == last
      && (last == Goal(p, s, xs) || last <= 0.0 || Stalled(p.(currentPrice := last), s, Goal(p, s, xs)))
  {
    var g, last := Goal(p, s, xs), PriceAfter(p, s, xs, n);
    MonotoneTowardGoal(p, s, xs, n, n);
    StepFrom(p, s, xs, n);
    MovesOrRests(p, s, xs, n);
    if PriceAfter(p, s, xs, n + 1) != last {
      NoGapNoStep(last, PriceAfter(p, s, xs, n + 1), g);
    } else if last != g && last > 0.0 {
      StallsExactly(p.(currentPrice := last), s, xs);
    }
  }

  lemma NoGapNoStep(a: real, b: real, g: real)
    requires WholeKopecks(a) && WholeKopecks(b) && Toward(a, b, g) && Gap(a, g) == 0
    ensures a == b
  {
    if a != b { GapShrinks(a, b, g); }
  }

  /** Each of the first n recalculations took a kopeck off the gap, or the price already rests. */
  lemma {:induction false} MovesOrRests(p: Product, s: Strategy, xs: seq<real>, n: nat)
    requires ValidStrategy(s) && InKopecks(p)
    ensures PriceAfter(p, s, xs, n + 1) == PriceAfter(p, s, xs, n)
            || Gap(PriceAfter(p, s, xs, n), Goal(p, s, xs)) + n <= Gap(p.currentPrice, Goal(p, s, xs))
  {
    if n > 0 {
      MovesOrRests(p, s, xs, n - 1);
      MonotoneTowardGoal(p, s, xs, n - 1, n);
      MonotoneTowardGoal(p, s, xs, n - 1, n - 1);
      var a, b, g := PriceAfter(p, s, xs, n - 1), PriceAfter(p, s, xs, n), Goal(p, s, xs);
      if a != b {
        GapShrinks(a, b, g);
      } else {
        assert p.(currentPrice := a) == p.(currentPrice := b);
      }
    }
  }

  lemma GapShrinks(a: real, b: real, g: real)
    requires WholeKopecks(a) && WholeKopecks(b) && Toward(a, b, g) && a != b
    ensures Gap(b, g) + 1 <= Gap(a, g)
  {
    var i, j := (a * 100.0).Floor, (b * 100.0).Floor;
    assert a * 100.0 == i as real && b * 100.0 == j as real && i != j;
    if a < b { assert i < j; } else { assert j < i; }
  }
}
