/** The scheduled recalculation tick, run by any number of scheduler replicas at once:
    list the shops, read the clock, and for each due shop claim the slot by a
    compare-and-set on `last_recalc_at`. */
module Scheduler {
  import opened Basics

  type Time = int
  type ShopId = nat
  type ReplicaId = nat

  datatype Shop = Shop(createdAt: Time, lastRecalcAt: Option<Time>)

  // A tick has listed the shops, then also read its clock.
  datatype Tick =
    | Listed(shops: map<ShopId, Shop>)
    | Clocked(shops: map<ShopId, Shop>, clock: Time)

  // `wins` records the successful updates: the shop and the database time of each.
  datatype World = World(now: Time, shops: map<ShopId, Shop>, ticks: map<ReplicaId, Tick>, wins: seq<(ShopId, Time)>)

  datatype Step =
    | Advance(dt: nat)
    | Create(id: ShopId)
    | List(r: ReplicaId)
    | ReadClock(r: ReplicaId, clock: Time)
    | Touch(r: ReplicaId, id: ShopId)
    | EndTick(r: ReplicaId)

  function Baseline(s: Shop): Time {
    if s.lastRecalcAt.Some? then s.lastRecalcAt.value else s.createdAt
  }

  /** The schedule: the first moment of the cron expression after a given one. */
  ghost predicate IsSchedule(next: Time -> Time) {
    && (forall t :: t < next(t))
    && (forall s, t :: s <= t ==> next(s) <= next(t))
  }

  /** `ahead` bounds by how much the clock of a replica is ahead of the database clock. */
  ghost predicate Enabled(w: World, s: Step, ahead: nat) {
    match s
    case Advance(_) => true
    case Create(id) => id !in w.shops
    case List(r) => r !in w.ticks
    case ReadClock(r, clock) => r in w.ticks && w.ticks[r].Listed? && clock <= w.now + ahead
    case Touch(r, id) => r in w.ticks && w.ticks[r].Clocked? && id in w.ticks[r].shops
    case EndTick(r) => r in w.ticks
  }

  /** `UPDATE shops SET last_recalc_at = NOW() WHERE last_recalc_at = expectedPrev`, NULL matching NULL. */
  function TouchLastRecalcAt(row: Shop, expectedPrev: Option<Time>, now: Time): (Shop, bool) {
    if row.lastRecalcAt == expectedPrev then (row.(lastRecalcAt := Some(now)), true) else (row, false)
  }

  /** The update wins exactly if nobody has updated since, and then stores the database time. */
  lemma TouchSpelledOut(row: Shop, expectedPrev: Option<Time>, now: Time)
    ensures var (after, won) := TouchLastRecalcAt(row, expectedPrev, now);
      && (won <==> row.lastRecalcAt == expectedPrev) && after.createdAt == row.createdAt
      && after.lastRecalcAt == if won then Some(now) else row.lastRecalcAt
  {}

  ghost function Apply(w: World, s: Step, next: Time -> Time, ahead: nat): World {
    if !Enabled(w, s, ahead) then w else
      match s
      case Advance(dt) => w.(now := w.now + dt)
      case Create(id) => w.(shops := w.shops[id := Shop(w.now, None)])
      case List(r) => w.(ticks := w.ticks[r := Listed(w.shops)])
      case ReadClock(r, clock) => w.(ticks := w.ticks[r := Clocked(w.ticks[r].shops, clock)])
      case Touch(r, id) =>
        var seen := w.ticks[r].shops[id];
        if next(Baseline(seen)) > w.ticks[r].clock || id !in w.shops then w else
          var (row, won) := TouchLastRecalcAt(w.shops[id], seen.lastRecalcAt, w.now);
          if won then w.(shops := w.shops[id := row], wins := w.wins + [(id, w.now)]) else w
      case EndTick(r) => w.(ticks := w.ticks - {r})
  }

  ghost function Exec(w: World, steps: seq<Step>, next: Time -> Time, ahead: nat): World
    decreases |steps|
  {
    if steps == [] then w else Exec(Apply(w, steps[0], next, ahead), steps[1..], next, ahead)
  }

  ghost predicate Init(w: World) {
    && w.ticks == map[] && w.wins == []
    && forall id :: id in w.shops ==> w.shops[id].createdAt <= w.now && Baseline(w.shops[id]) <= w.now
  }

  /** The times at which a shop was claimed, in order. */
  function WinsOf(wins: seq<(ShopId, Time)>, id: ShopId): seq<Time> {
    if wins == [] then [] else
      var last := wins[|wins| - 1];
      WinsOf(wins[..|wins| - 1], id) + (if last.0 == id then [last.1] else [])
  }

  ghost predicate Spaced(times: seq<Time>, next: Time -> Time, ahead: nat) {
    forall i :: 0 <= i < |times| - 1 ==> next(times[i]) <= times[i + 1] + ahead
  }

  ghost predicate ShopInv(w: World, id: ShopId, next: Time -> Time, ahead: nat) {
    var times := WinsOf(w.wins, id);
    && Spaced(times, next, ahead)
    && (id !in w.shops ==> times == [])
    && (times != [] ==> w.shops[id].lastRecalcAt == Some(times[|times| - 1]))
  }

  ghost predicate Inv(w: World, next: Time -> Time, ahead: nat) {
    (forall id :: ShopInv(w, id, next, ahead)) && TicksKnown(w, ahead)
  }

  ghost predicate TicksKnown(w: World, ahead: nat) {
    forall r :: r in w.ticks ==>
      && (w.ticks[r].Clocked? ==> w.ticks[r].clock <= w.now + ahead)
      && forall id :: id in w.ticks[r].shops ==>
           id in w.shops && w.ticks[r].shops[id].createdAt == w.shops[id].createdAt
  }

  lemma StepKeepsTicksKnown(w: World, s: Step, next: Time -> Time, ahead: nat)
    requires TicksKnown(w, ahead)
    ensures TicksKnown(Apply(w, s, next, ahead), ahead)
  {}

  lemma StepKeepsShopInv(w: World, s: Step, next: Time -> Time, ahead: nat, id: ShopId)
    requires ShopInv(w, id, next, ahead) && TicksKnown(w, ahead)
    ensures ShopInv(Apply(w, s, next, ahead), id, next, ahead)
  {
    var w' := Apply(w, s, next, ahead);
    if w'.wins != w.wins {
      WinsAfter(w.wins, (s.id, w.now), id);
    }
  }

  lemma StepKeepsInv(w: World, s: Step, next: Time -> Time, ahead: nat)
    requires Inv(w, next, ahead)
    ensures Inv(Apply(w, s, next, ahead), next, ahead)
  {
    StepKeepsTicksKnown(w, s, next, ahead);
    forall id ensures ShopInv(Apply(w, s, next, ahead), id, next, ahead) {
      StepKeepsShopInv(w, s, next, ahead, id);
    }
  }

  lemma {:induction false} RunKeepsInv(w: World, steps: seq<Step>, next: Time -> Time, ahead: nat)
    requires Inv(w, next, ahead)
    ensures Inv(Exec(w, steps, next, ahead), next, ahead)
    decreases |steps|
  {
    if steps != [] {
      StepKeepsInv(w, steps[0], next, ahead);
      RunKeepsInv(Apply(w, steps[0], next, ahead), steps[1..], next, ahead);
    }
  }

  lemma {:induction false} SpacedApart(times: seq<Time>, next: Time -> Time, i: nat, j: nat)
    requires IsSchedule(next) && Spaced(times, next, 0) && i < j < |times|
    ensures next(times[i]) <= times[j]
    decreases j - i
  {
    if j > i + 1 {
      SpacedApart(times, next, i + 1, j);
      assert next(times[i]) <= times[i + 1] < next(times[i + 1]);
    }
  }

  /** Over every interleaving of any number of replicas: consecutive claims of a shop are a
      whole slot apart, up to the clock difference. */
  lemma {:induction false} ClaimsAreASlotApart(w: World, steps: seq<Step>, next: Time -> Time, ahead: nat, id: ShopId)
    requires Init(w)
    ensures Spaced(WinsOf(Exec(w, steps, next, ahead).wins, id), next, ahead)
  {
    RunKeepsInv(w, steps, next, ahead);
    assert ShopInv(Exec(w, steps, next, ahead), id, next, ahead);
  }

  /** Where a shop starts from: what it had at the beginning, or the moment of its creation. */
  ghost function StartOf(w: World, later: World, id: ShopId): Time
    requires id in w.shops || id in later.shops
  {
    if id in w.shops then
      if w.shops[id].lastRecalcAt.Some? then w.shops[id].lastRecalcAt.value else w.shops[id].createdAt
    else later.shops[id].createdAt
  }

  ghost predicate FirstInv(w: World, later: World, id: ShopId, next: Time -> Time, ahead: nat) {
    var times := WinsOf(later.wins, id);
    && (id in w.shops ==> id in later.shops)
    && (id !in later.shops ==> times == [])
    && (id in later.shops && times == [] ==> Baseline(later.shops[id]) == StartOf(w, later, id))
    && (times != [] ==> next(StartOf(w, later, id)) <= times[0] + ahead)
  }

  lemma StepKeepsFirstInv(w: World, later: World, s: Step, id: ShopId, next: Time -> Time, ahead: nat)
    requires FirstInv(w, later, id, next, ahead) && TicksKnown(later, ahead)
    ensures FirstInv(w, Apply(later, s, next, ahead), id, next, ahead)
  {
    if s.Touch? && Enabled(later, s, ahead) {
      TouchKeepsFirstInv(w, later, s, id, next, ahead);
    }
  }

  lemma TouchKeepsFirstInv(w: World, later: World, s: Step, id: ShopId, next: Time -> Time, ahead: nat)
    requires FirstInv(w, later, id, next, ahead) && TicksKnown(later, ahead) && s.Touch? && Enabled(later, s, ahead)
    ensures FirstInv(w, Apply(later, s, next, ahead), id, next, ahead)
  {
    var after := Apply(later, s, next, ahead);
    if after != later {
      WinningTouch(later, after, s, next, ahead);
      WinKeepsFirstInv(w, later, after, s.id, id, next, ahead);
    }
  }

  /** A claim that wins is due by the clock of its replica. */
  lemma WinningTouch(w: World, after: World, s: Step, next: Time -> Time, ahead: nat)
    requires TicksKnown(w, ahead) && s.Touch? && Enabled(w, s, ahead)
    requires after == Apply(w, s, next, ahead) && after != w
    ensures s.id in w.shops && next(Baseline(w.shops[s.id])) <= w.now + ahead
    ensures after.shops == w.shops[s.id := w.shops[s.id].(lastRecalcAt := Some(w.now))]
    ensures after.wins == w.wins + [(s.id, w.now)]
  {
    var seen := w.ticks[s.r].shops[s.id];
    assert Baseline(seen) == Baseline(w.shops[s.id]);
  }

  /** And exactly the due ones win whose shop nobody has updated since it was listed. */
  lemma TouchWinsExactly(w: World, s: Step, next: Time -> Time, ahead: nat)
    requires s.Touch? && Enabled(w, s, ahead)
    ensures var seen := w.ticks[s.r].shops[s.id];
      Apply(w, s, next, ahead).wins != w.wins <==>
        && next(if seen.lastRecalcAt.Some? then seen.lastRecalcAt.value else seen.createdAt) <= w.ticks[s.r].clock
        && s.id in w.shops && w.shops[s.id].lastRecalcAt == seen.lastRecalcAt
  {}

  lemma WinKeepsFirstInv(w: World, later: World, after: World, won: ShopId, id: ShopId, next: Time -> Time, ahead: nat)
    requires FirstInv(w, later, id, next, ahead)
    requires won in later.shops && next(Baseline(later.shops[won])) <= later.now + ahead
    requires after.shops == later.shops[won := later.shops[won].(lastRecalcAt := Some(later.now))]
    requires after.wins == later.wins + [(won, later.now)]
    ensures FirstInv(w, after, id, next, ahead)
  {
    WinsAfter(later.wins, (won, later.now), id);
  }

  lemma {:induction false} RunKeepsFirstInv(w: World, later: World, steps: seq<Step>, id: ShopId, next: Time -> Time,
                                            ahead: nat)
    requires FirstInv(w, later, id, next, ahead) && TicksKnown(later, ahead)
    ensures FirstInv(w, Exec(later, steps, next, ahead), id, next, ahead)
    decreases |steps|
  {
    if steps != [] {
      StepKeepsFirstInv(w, later, steps[0], id, next, ahead);
      StepKeepsTicksKnown(later, steps[0], next, ahead);
      RunKeepsFirstInv(w, Apply(later, steps[0], next, ahead), steps[1..], id, next, ahead);
    }
  }

  /** Over every interleaving, the first claim of a shop waits for the first moment of its schedule after
      its last recalculation, or after its creation if it never had one. */
  lemma {:induction false} FirstClaimWaits(w: World, steps: seq<Step>, next: Time -> Time, ahead: nat, id: ShopId)
    requires Init(w) && WinsOf(Exec(w, steps, next, ahead).wins, id) != []
    ensures var later := Exec(w, steps, next, ahead);
      (id in w.shops || id in later.shops) && next(StartOf(w, later, id)) <= WinsOf(later.wins, id)[0] + ahead
  {
    RunKeepsFirstInv(w, w, steps, id, next, ahead);
  }

  /** With agreeing clocks each slot triggers at most one recalculation of a shop: wherever a
      slot is taken to begin, no two claims fall between it and the next moment of the schedule. */
  lemma {:induction false} OneClaimPerSlot(w: World, steps: seq<Step>, next: Time -> Time, id: ShopId, slot: Time,
                                           i: nat, j: nat)
    requires Init(w) && IsSchedule(next)
    requires i < j < |WinsOf(Exec(w, steps, next, 0).wins, id)|
    ensures var times := WinsOf(Exec(w, steps, next, 0).wins, id);
            slot <= times[i] ==> next(slot) <= times[j]
  {
    ClaimsAreASlotApart(w, steps, next, 0, id);
    SpacedApart(WinsOf(Exec(w, steps, next, 0).wins, id), next, i, j);
  }

  /** Two claims of a shop with less than a slot between them. */
  ghost predicate ClaimsTooSoon(w: World, next: Time -> Time, id: ShopId) {
    exists i, j :: 0 <= i < j < |WinsOf(w.wins, id)| && WinsOf(w.wins, id)[j] < next(WinsOf(w.wins, id)[i])
  }

  /** For every schedule: no run claims a slot of a shop twice if and only if no replica's clock is
      ever ahead of the database clock. */
  lemma AgreementIsExact(next: Time -> Time, ahead: nat)
    requires IsSchedule(next)
    ensures (forall w, steps, id :: Init(w) ==> !ClaimsTooSoon(Exec(w, steps, next, ahead), next, id)) <==> ahead == 0
  {
    if ahead == 0 {
      forall w, steps, id | Init(w) ensures !ClaimsTooSoon(Exec(w, steps, next, 0), next, id) {
        var w' := Exec(w, steps, next, 0);
        if ClaimsTooSoon(w', next, id) {
          var i, j :| 0 <= i < j < |WinsOf(w'.wins, id)| && WinsOf(w'.wins, id)[j] < next(WinsOf(w'.wins, id)[i]);
          OneClaimPerSlot(w, steps, next, id, WinsOf(w'.wins, id)[i], i, j);
          assert false;
        }
      }
    } else {
      var w, steps := SkewedClockClaimsTwice(next, ahead);
      var w' := Exec(w, steps, next, ahead);
      assert WinsOf(w'.wins, 5)[1] < next(WinsOf(w'.wins, 5)[0]);
      assert ClaimsTooSoon(w', next, 5);
    }
  }

  /** A replica that is ahead, by however little, claims a slot a moment before it begins, after
      another replica has claimed the slot before. */
  lemma SkewedClockClaimsTwice(next: Time -> Time, ahead: nat) returns (w: World, steps: seq<Step>)
    requires IsSchedule(next) && ahead > 0
    ensures Init(w)
    ensures var times := WinsOf(Exec(w, steps, next, ahead).wins, 5);
      |times| == 2 && times[1] < next(times[0])
  {
    var first := next(0);
    var early: nat := next(first) - 1 - first;
    w := World(first, map[5 := Shop(0, None)], map[], []);
    steps := TickOf(1, first, 5) + ([Advance(early)] + TickOf(2, next(first), 5));
    TwoTicksWin(w, 1, first, early, 2, next(first), 5, next, ahead);
  }

  lemma TwoTicksWin(w: World, r: ReplicaId, clock: Time, wait: nat, s: ReplicaId, skewed: Time, id: ShopId,
                    next: Time -> Time, ahead: nat)
    requires w.ticks == map[] && w.wins == [] && r != s && id in w.shops
    requires clock <= w.now + ahead && next(Baseline(w.shops[id])) <= clock
    requires skewed <= w.now + wait + ahead && next(w.now) <= skewed
    ensures WinsOf(Exec(w, TickOf(r, clock, id) + ([Advance(wait)] + TickOf(s, skewed, id)), next, ahead).wins, id)
            == [w.now, w.now + wait]
  {
    TickWins(w, TickOf(r, clock, id), r, clock, id, next, ahead);
    SecondTickWins(w, TickOf(r, clock, id), wait, TickOf(s, skewed, id), s, skewed, id, next, ahead);
    TwoWins(id, w.now, w.now + wait);
  }

  lemma SecondTickWins(w: World, first: seq<Step>, wait: nat, second: seq<Step>, s: ReplicaId, skewed: Time, id: ShopId,
                       next: Time -> Time, ahead: nat)
    requires var w' := Exec(w, first, next, ahead);
      && s !in w'.ticks && id in w'.shops && w'.wins == [(id, w.now)] && w'.now == w.now
      && w'.shops[id].lastRecalcAt == Some(w.now)
    requires second == TickOf(s, skewed, id) && skewed <= w.now + wait + ahead && next(w.now) <= skewed
    ensures Exec(w, first + ([Advance(wait)] + second), next, ahead).wins == [(id, w.now)] + [(id, w.now + wait)]
  {
    var w' := Exec(w, first, next, ahead);
    ExecSplits(w, first, [Advance(wait)] + second, next, ahead);
    assert ([Advance(wait)] + second)[1..] == second;
    assert Exec(w', [Advance(wait)] + second, next, ahead)
        == Exec(Apply(w', Advance(wait), next, ahead), second, next, ahead);
    TickWins(Apply(w', Advance(wait), next, ahead), second, s, skewed, id, next, ahead);
  }

  lemma TwoWins(id: ShopId, s: Time, t: Time)
    ensures WinsOf([(id, s)] + [(id, t)], id) == [s, t]
  {
    WinsAfter([], (id, s), id);
    WinsAfter([(id, s)], (id, t), id);
  }

  /** A tick of one replica that nothing interrupts. */
  function TickOf(r: ReplicaId, clock: Time, id: ShopId): seq<Step> {
    [List(r), ReadClock(r, clock), Touch(r, id)]
  }

  lemma TickWins(w: World, steps: seq<Step>, r: ReplicaId, clock: Time, id: ShopId, next: Time -> Time, ahead: nat)
    requires r !in w.ticks && id in w.shops && clock <= w.now + ahead && next(Baseline(w.shops[id])) <= clock
    requires steps == TickOf(r, clock, id)
    ensures var w' := Exec(w, steps, next, ahead);
      && w'.now == w.now && w'.wins == w.wins + [(id, w.now)] && w'.ticks.Keys == w.ticks.Keys + {r}
      && id in w'.shops && w'.shops[id].lastRecalcAt == Some(w.now)
  {
    ExecThree(w, steps, next, ahead);
    var w1 := Apply(w, List(r), next, ahead);
    var w2 := Apply(w1, ReadClock(r, clock), next, ahead);
    assert w1 == w.(ticks := w.ticks[r := Listed(w.shops)]);
    assert w2 == w.(ticks := w1.ticks[r := Clocked(w.shops, clock)]);
  }

  lemma WinsAfter(wins: seq<(ShopId, Time)>, win: (ShopId, Time), id: ShopId)
    ensures WinsOf(wins + [win], id) == WinsOf(wins, id) + (if win.0 == id then [win.1] else [])
  {
    assert (wins + [win])[..|wins|] == wins;
  }

  lemma ExecThree(w: World, s: seq<Step>, next: Time -> Time, ahead: nat)
    requires |s| == 3
    ensures Exec(w, s, next, ahead) ==
              Apply(Apply(Apply(w, s[0], next, ahead), s[1], next, ahead), s[2], next, ahead)
  {
    var w1 := Apply(w, s[0], next, ahead);
    var w2 := Apply(w1, s[1], next, ahead);
    assert Exec(w, s, next, ahead) == Exec(w1, s[1..], next, ahead) == Exec(w2, s[1..][1..], next, ahead);
    assert Exec(w2, s[1..][1..], next, ahead) == Exec(Apply(w2, s[2], next, ahead), s[1..][1..][1..], next, ahead);
  }

  lemma {:induction false} ExecSplits(w: World, first: seq<Step>, second: seq<Step>, next: Time -> Time, ahead: nat)
    ensures Exec(w, first + second, next, ahead) == Exec(Exec(w, first, next, ahead), second, next, ahead)
    decreases |first|
  {
    if first == [] {
      assert first + second == second;
    } else {
      assert (first + second)[1..] == first[1..] + second;
      ExecSplits(Apply(w, first[0], next, ahead), first[1..], second, next, ahead);
    }
  }
}
