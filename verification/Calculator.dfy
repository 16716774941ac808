/** The price calculator: formula, fallback, the ordered chain of bounds, and rounding.
    Prices are exact reals; percentages are plain numbers, so 5.0 stands for 5 %. */
module Calculator {
  import opened Basics
  import opened PriceStats
  import opened Money

  datatype Product = Product(currency: string, archived: bool, currentPrice: real, costPrice: Option<real>)

  datatype Formula =
    | Fixed(value: real)
    | BelowMedianPct(pct: real)
    | MinCompetitorPlusStep(step: real)
    | MinMarginPct(marginPct: real)

  datatype FallbackPolicy = SetFixed | SetMin | KeepCurrent | OtherPolicy

  datatype Constraints = Constraints(
    minPrice: Option<real>, maxPrice: Option<real>, minProfitPct: Option<real>, minProfitAbs: Option<real>,
    maxChangePct: Option<real>, fallbackPrice: Option<real>)

  datatype Strategy = Strategy(enabled: bool, formula: Formula, fallback: FallbackPolicy, constraints: Constraints)

  datatype Hit = NoHit | CostPriceFloor | MinProfitPct | MinProfitAbs | MaxPrice | MinPrice | MaxChangePct

  datatype Status = Pending | Skipped

  datatype Result = Result(targetPrice: real, finalPrice: real, hit: Hit, status: Status)

  // ---- Validation ----

  const MAX_MONEY := 9999999999.99

  predicate ValidMoney(v: real) {
    0.0 <= v <= MAX_MONEY
  }

  predicate ValidParams(f: Formula) {
    match f
    case Fixed(v) => ValidMoney(v) && v > 0.0
    case BelowMedianPct(pct) => 0.0 <= pct <= 100.0
    case MinCompetitorPlusStep(step) => step >= 0.0
    case MinMarginPct(pct) => pct >= 0.0
  }

  predicate ValidConstraints(c: Constraints) {
    && (c.minPrice.Some? ==> ValidMoney(c.minPrice.value))
    && (c.maxPrice.Some? ==> ValidMoney(c.maxPrice.value))
    && (c.minPrice.Some? && c.maxPrice.Some? ==> c.minPrice.value <= c.maxPrice.value)
    && (c.minProfitPct.Some? ==> c.minProfitPct.value >= 0.0)
    && (c.minProfitAbs.Some? ==> ValidMoney(c.minProfitAbs.value))
    && (c.maxChangePct.Some? ==> c.maxChangePct.value >= 0.0)
    && (c.fallbackPrice.Some? ==> ValidMoney(c.fallbackPrice.value) && c.fallbackPrice.value > 0.0)
  }

  predicate ValidStrategy(s: Strategy) {
    ValidParams(s.formula) && ValidConstraints(s.constraints)
  }

  // ---- The chain of bounds ----

  function RMax(a: real, b: real): real { if a >= b then a else b }

  function RMin(a: real, b: real): real { if a <= b then a else b }

  /** A cost of zero or less counts as not given. */
  function CostPriceOrNil(p: Product): Option<real> {
    if p.costPrice.Some? && p.costPrice.value > 0.0 then p.costPrice else None
  }

  function AtLeast(floor: Option<real>, x: real): real {
    if floor.Some? then RMax(floor.value, x) else x
  }

  function AtMost(cap: Option<real>, x: real): real {
    if cap.Some? then RMin(cap.value, x) else x
  }

  function Raised(x: real, pct: real): real { x * (1.0 + pct / 100.0) }

  function Lowered(x: real, pct: real): real { x * (1.0 - pct / 100.0) }

  function Share(x: real, pct: real): real { x * (pct / 100.0) }

  /** Percentages, cleared of fractions. */
  lemma PercentagesSpelledOut(x: real, pct: real)
    ensures 100.0 * Raised(x, pct) == 100.0 * x + x * pct
    ensures 100.0 * Lowered(x, pct) == 100.0 * x - x * pct
    ensures 100.0 * Share(x, pct) == x * pct
  {}

  function ByPct(c: Constraints, cost: real): real {
    if c.minProfitPct.Some? then Raised(cost, c.minProfitPct.value) else cost
  }

  function ByAbs(c: Constraints, cost: real): real {
    if c.minProfitAbs.Some? then cost + c.minProfitAbs.value else cost
  }

  /** The least price with the required profit; nothing is required without a cost. */
  function ProfitFloor(c: Constraints, cost: Option<real>): Option<real> {
    if cost.None? then None else Some(RMax(RMax(cost.value, ByPct(c, cost.value)), ByAbs(c, cost.value)))
  }

  /** Which rule asked for the profit: the absolute one only when it asks for strictly more. */
  function ProfitHit(c: Constraints, cost: Option<real>, target: real): Hit {
    if cost.None? || ProfitFloor(c, cost).value <= target then NoHit
    else if RMax(ByPct(c, cost.value), ByAbs(c, cost.value)) <= cost.value then CostPriceFloor
    else if ByAbs(c, cost.value) > RMax(cost.value, ByPct(c, cost.value)) then MinProfitAbs
    else MinProfitPct
  }

  function ChangeBounds(c: Constraints, current: real): (r: Option<(real, real)>) {
    if c.maxChangePct.Some? then
      var delta := Share(current, c.maxChangePct.value);
      Some((current - delta, current + delta))
    else None
  }

  /** Steps 1 to 4: what the bounds other than the change limit make of a target. */
  function Wanted(c: Constraints, cost: Option<real>, target: real): real {
    AtLeast(c.minPrice, AtMost(c.maxPrice, AtLeast(ProfitFloor(c, cost), target)))
  }

  function LimitChange(bounds: Option<(real, real)>, x: real): real {
    if bounds.None? then x else
    if x > bounds.value.1 then bounds.value.1 else RMax(bounds.value.0, x)
  }

  /** The final price before rounding. */
  function Unrounded(c: Constraints, cost: Option<real>, current: real, target: real): real {
    AtLeast(cost, LimitChange(ChangeBounds(c, current), Wanted(c, cost, target)))
  }

  /** The last bound after the profit rules that moved the price, or else what moved it before. */
  function HitAfter(c: Constraints, cost: Option<real>, change: Option<(real, real)>, profited: real,
                    before: Hit): Hit {
    var capped := AtMost(c.maxPrice, profited);
    var wanted := AtLeast(c.minPrice, capped);
    var limited := LimitChange(change, wanted);
    if AtLeast(cost, limited) != limited then CostPriceFloor
    else if limited != wanted then MaxChangePct
    else if wanted != capped then MinPrice
    else if capped != profited then MaxPrice
    else before
  }

  function HitOf(c: Constraints, cost: Option<real>, current: real, target: real): Hit {
    HitAfter(c, cost, ChangeBounds(c, current), AtLeast(ProfitFloor(c, cost), target), ProfitHit(c, cost, target))
  }

  // ---- The calculation ----

  /** None when the formula does not apply. */
  function ComputeTarget(f: Formula, cost: Option<real>, competitors: seq<real>): Option<real> {
    match f
    case Fixed(v) => Some(v)
    case BelowMedianPct(pct) => if competitors == [] then None else Some(Lowered(Median(competitors), pct))
    case MinCompetitorPlusStep(step) => if competitors == [] then None else Some(Least(competitors) + step)
    case MinMarginPct(pct) => if cost.None? then None else Some(Raised(cost.value, pct))
  }

  function FallbackPrice(p: Product, s: Strategy): real {
    if s.fallback.SetFixed? && s.constraints.fallbackPrice.Some? && s.constraints.fallbackPrice.value > 0.0 then
      s.constraints.fallbackPrice.value
    else if (s.fallback.SetFixed? || s.fallback.SetMin?) && s.constraints.minPrice.Some? then
      s.constraints.minPrice.value
    else p.currentPrice
  }

  predicate Priceable(p: Product, s: Option<Strategy>) {
    (p.currency == "" || p.currency == "RUB") && !p.archived && p.currentPrice > 0.0 && s.Some? && s.value.enabled
  }

  function Priced(p: Product, s: Strategy, target: Option<real>): Result {
    var cost, c := CostPriceOrNil(p), s.constraints;
    if target.None? then Result(0.0, RoundMoney(AtLeast(cost, FallbackPrice(p, s))), NoHit, Skipped)
    else Result(RoundMoney(target.value), RoundMoney(Unrounded(c, cost, p.currentPrice, target.value)),
                HitOf(c, cost, p.currentPrice, target.value), Pending)
  }

  function Calculated(p: Product, s: Option<Strategy>, competitors: seq<real>): Result {
    if !Priceable(p, s) then Result(0.0, 0.0, NoHit, Skipped)
    else Priced(p, s.value, ComputeTarget(s.value.formula, CostPriceOrNil(p), competitors))
  }

  method Calculate(p: Product, s: Option<Strategy>, competitors: seq<real>) returns (r: Result)
    ensures r == Calculated(p, s, competitors)
  {
    if (p.currency != "" && p.currency != "RUB") || p.archived || p.currentPrice <= 0.0 || s.None? || !s.value.enabled {
      return Result(0.0, 0.0, NoHit, Skipped);
    }
    var c, cost := s.value.constraints, CostPriceOrNil(p);
    var formula := ComputeTarget(s.value.formula, cost, competitors);
    if formula.None? {
      r := ApplyFallback(p, s.value);
      return;
    }
    var target := formula.value;
    var profited, profitHit := ApplyProfit(c, cost, target);
    var final, hit := ApplyBounds(c, cost, p.currentPrice, profited, profitHit);
    r := Result(RoundMoney(target), RoundMoney(final), hit, Pending);
  }

  /** Steps 4 to 6: the price range, the change limit and the cost once more. */
  method ApplyBounds(c: Constraints, cost: Option<real>, current: real, profited: real, before: Hit)
    returns (final: real, hit: Hit)
    ensures final == AtLeast(cost, LimitChange(ChangeBounds(c, current),
              AtLeast(c.minPrice, AtMost(c.maxPrice, profited))))
    ensures hit == HitAfter(c, cost, ChangeBounds(c, current), profited, before)
  {
    final, hit := profited, before;
    if c.maxPrice.Some? && final > c.maxPrice.value {
      final, hit := c.maxPrice.value, MaxPrice;
    }
    if c.minPrice.Some? && final < c.minPrice.value {
      final, hit := c.minPrice.value, MinPrice;
    }
    var limited := ClampChange(c, current, final);
    if limited != final {
      final, hit := limited, MaxChangePct;
    }
    if cost.Some? && final < cost.value {
      final, hit := cost.value, CostPriceFloor;
    }
  }

  /** Step 5: the change limit. */
  method ClampChange(c: Constraints, current: real, wanted: real) returns (final: real)
    ensures final == LimitChange(ChangeBounds(c, current), wanted)
  {
    final := wanted;
    if c.maxChangePct.Some? {
      var maxDelta := current * (c.maxChangePct.value / 100.0);
      var upper, lower := current + maxDelta, current - maxDelta;
      if final > upper {
        final := upper;
      } else if final < lower {
        final := lower;
      }
    }
  }

  /** Steps 2 and 3: the cost floor and the two profit rules. */
  method ApplyProfit(c: Constraints, cost: Option<real>, target: real) returns (final: real, hit: Hit)
    ensures final == AtLeast(ProfitFloor(c, cost), target)
    ensures hit == ProfitHit(c, cost, target)
  {
    final, hit := target, NoHit;
    if cost.Some? && final < cost.value {
      final, hit := cost.value, CostPriceFloor;
    }
    if cost.Some? {
      var minProfit, profitHit := cost.value, NoHit;
      if c.minProfitPct.Some? {
        var candidate := ByPct(c, cost.value);
        if candidate > minProfit {
          minProfit, profitHit := candidate, MinProfitPct;
        }
      }
      if c.minProfitAbs.Some? {
        var candidate := ByAbs(c, cost.value);
        if candidate > minProfit {
          minProfit, profitHit := candidate, MinProfitAbs;
        }
      }
      if final < minProfit {
        final := minProfit;
        if profitHit != NoHit { hit := profitHit; }
      }
    }
  }

  method ApplyFallback(p: Product, s: Strategy) returns (r: Result)
    ensures r == Result(0.0, RoundMoney(AtLeast(CostPriceOrNil(p), FallbackPrice(p, s))), NoHit, Skipped)
  {
    var cost := CostPriceOrNil(p);
    if s.fallback.SetFixed? && s.constraints.fallbackPrice.Some? && s.constraints.fallbackPrice.value > 0.0 {
      return Result(0.0, RoundMoney(AtLeast(cost, s.constraints.fallbackPrice.value)), NoHit, Skipped);
    }
    if (s.fallback.SetFixed? || s.fallback.SetMin?) && s.constraints.minPrice.Some? {
      return Result(0.0, RoundMoney(AtLeast(cost, s.constraints.minPrice.value)), NoHit, Skipped);
    }
    r := Result(0.0, RoundMoney(AtLeast(cost, p.currentPrice)), NoHit, Skipped);
  }
}
